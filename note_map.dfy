/** The fixed map from MIDI note numbers to solenoid outputs, and the
    output levels that a trace of playback actions leaves behind. */
module NoteMap {
  import opened MidiBase

  /** The note each solenoid plays: solenoid k plays `Notes[k]`. */
  const Notes: seq<byte> := [60, 61, 62, 63]

  /** The output levels after `handle_note_on(note)` (`value` true) or
      `handle_note_off(note)` (`value` false): the solenoid configured for
      `note` takes `value`, every other one keeps its level, and a note with
      no solenoid changes nothing. */
  function SetNote(levels: seq<bool>, note: int, value: bool): (r: seq<bool>)
    requires |levels| == |Notes|
    ensures |r| == |Notes|
    ensures r == if 60 <= note < 64 then levels[note - 60 := value] else levels
  {
    seq(|Notes|, k requires 0 <= k < |Notes| => if Notes[k] == note then value else levels[k])
  }

  /** The effect of one playback action on the output levels. */
  function Apply(levels: seq<bool>, a: Action): (r: seq<bool>)
    requires |levels| == |Notes|
    ensures |r| == |Notes|
  {
    match a
    case Sleep(_) => levels
    case NoteOn(n) => SetNote(levels, n, true)
    case NoteOff(n) => SetNote(levels, n, false)
  }

  /** The output levels after the actions of `trace`, in order, starting
      from `levels`. */
  function Actuate(levels: seq<bool>, trace: seq<Action>): (r: seq<bool>)
    requires |levels| == |Notes|
    ensures |r| == |Notes|
    decreases |trace|
  {
    if trace == [] then levels
    else Apply(Actuate(levels, trace[..|trace| - 1]), trace[|trace| - 1])
  }

  /** Performing `a` and then `b` is performing `a + b`. */
  lemma {:induction false} ActuateAppend(levels: seq<bool>, a: seq<Action>, b: seq<Action>)
    requires |levels| == |Notes|
    ensures Actuate(levels, a + b) == Actuate(Actuate(levels, a), b)
    decreases |b|
  {
    if b == [] {
      assert a + b == a;
    } else {
      assert (a + b)[..|a + b| - 1] == a + b[..|b| - 1];
      ActuateAppend(levels, a, b[..|b| - 1]);
    }
  }

  /** Sleeping changes no output. */
  lemma {:induction false} SleepsChangeNothing(levels: seq<bool>, trace: seq<Action>)
    requires |levels| == |Notes|
    requires forall k :: 0 <= k < |trace| ==> trace[k].Sleep?
    ensures Actuate(levels, trace) == levels
    decreases |trace|
  {
    if trace != [] {
      SleepsChangeNothing(levels, trace[..|trace| - 1]);
    }
  }

  /** `handle_note_on`: the scan over `notes` that switches on every
      solenoid configured for `note`. */
  method HandleNoteOn(noids: array<bool>, note: byte)
    requires noids.Length == |Notes|
    modifies noids
    ensures noids[..] == SetNote(old(noids[..]), note, true)
  {
    for k := 0 to |Notes|
      invariant forall m :: 0 <= m < |Notes| ==>
        noids[m] == if m < k && Notes[m] == note then true else old(noids[m])
    {
      if note == Notes[k] {
        noids[k] := true;
      }
    }
  }

  /** `handle_note_off`: the same scan, switching the solenoids off. */
  method HandleNoteOff(noids: array<bool>, note: byte)
    requires noids.Length == |Notes|
    modifies noids
    ensures noids[..] == SetNote(old(noids[..]), note, false)
  {
    for k := 0 to |Notes|
      invariant forall m :: 0 <= m < |Notes| ==>
        noids[m] == if m < k && Notes[m] == note then false else old(noids[m])
    {
      if note == Notes[k] {
        noids[k] := false;
      }
    }
  }
}
