/** The event loop over the data of one `MTrk` chunk. Each step reads a
    delta-time, sleeps, reads a status byte and consumes the event it
    starts; the state carried from step to step is the cursor and the tempo. */
module TrackParser {
  import opened MidiBase
  import opened Vlq
  import opened TempoClock
  import opened NoteMap

  /** The loop state between two events: the index `i` in the track data and
      the tempo in force. */
  datatype Cursor = Cursor(pos: nat, tempo: nat)

  /** High nibble of a status byte (`event_type & 0xF0`, shifted down). */
  function Kind(status: byte): nat
  {
    status / 16
  }

  /** Note Off (`0x8n`) or Note On (`0x9n`). */
  predicate IsNoteStatus(status: byte)
  {
    Kind(status) == 8 || Kind(status) == 9
  }

  /** The part of a step after the sleep: the status byte at `j` and the
      bytes of its event. Only a Set Tempo meta event changes the tempo; only
      a note message produces an action, and it consumes exactly its two data
      bytes; any status byte that is not a meta, SysEx or note status
      consumes only itself. */
  function Dispatch(data: seq<byte>, j: nat, tempo: nat): (r: Run<Cursor>)
    ensures r.result.Ok? ==> r.result.value.pos > j
    ensures r.result.Ok? && r.result.value.tempo != tempo ==> j + 1 < |data| && data[j] == 0xFF && data[j + 1] == 0x51
    ensures r.result.Ok? ==> r.result.value.tempo > 0 || r.result.value.tempo == tempo
    ensures |r.trace| <= 1
    ensures r.trace != [] ==> j + 2 < |data| && IsNoteStatus(data[j]) && r.result == Ok(Cursor(j + 3, tempo))
    ensures r.trace != [] ==>
      r.trace[0] == if Kind(data[j]) == 9 && data[j + 2] > 0 then NoteOn(data[j + 1]) else NoteOff(data[j + 1])
  {
    if j >= |data| then Run([], Err(IndexError))
    else
      var status := data[j];
      if status == 0xFF then
        if j + 1 >= |data| then Run([], Err(IndexError))
        else
          var metaType := data[j + 1];
          match DecodeVlq(data, j + 2)
          case Err(e) => Run([], Err(e))
          case Ok(Vlq(length, k)) =>
            if metaType == 0x51 then
              if k + 3 > |data| then Run([], Err(StructError))
              else
                var t := BigEndian(data[k..k + 3]);
                // the log line after the update divides 60000000 by the new tempo
                if t == 0 then Run([], Err(ZeroDivisionError))
                else Run([], Ok(Cursor(k + length, t)))
            else Run([], Ok(Cursor(k + length, tempo)))
      else if status == 0xF0 || status == 0xF7 then
        match DecodeVlq(data, j + 1)
        case Err(e) => Run([], Err(e))
        case Ok(Vlq(length, k)) => Run([], Ok(Cursor(k + length, tempo)))
      else if status >= 0x80 && IsNoteStatus(status) then
        if j + 2 >= |data| then Run([], Err(IndexError))
        else
          var note, velocity := data[j + 1], data[j + 2];
          var a := if Kind(status) == 9 && velocity > 0 then NoteOn(note) else NoteOff(note);
          Run([a], Ok(Cursor(j + 3, tempo)))
      else Run([], Ok(Cursor(j + 1, tempo)))
  }

  /** One iteration of the loop, from index `i` under tempo `tempo`. The
      delay is computed with the tempo in force before the event is parsed,
      and slept before the status byte is read; `time.sleep` refuses a
      negative length with `ValueError`, so every sleep performed is
      non-negative. The step advances at least two bytes (the delta-time and
      the status byte). */
  function EventStep(data: seq<byte>, i: nat, tempo: nat, division: nat): (r: Run<Cursor>)
    ensures r.result.Ok? ==> r.result.value.pos >= i + 2
    ensures 1 <= |r.trace| <= 2 || r.result.Err?
    ensures r.trace != [] ==>
      DecodeVlq(data, i).Ok? && DelayMs(DecodeVlq(data, i).value.value, tempo, division).Ok? &&
      r.trace[0] == Sleep(DelayMs(DecodeVlq(data, i).value.value, tempo, division).value) &&
      r.trace[0].ms >= 0.0
    ensures forall k :: 1 <= k < |r.trace| ==> !r.trace[k].Sleep?
  {
    match DecodeVlq(data, i)
    case Err(e) => Run([], Err(e))
    case Ok(Vlq(delta, j)) =>
      match DelayMs(delta, tempo, division)
      case Err(e) => Run([], Err(e))
      case Ok(d) =>
        if d < 0.0 then Run([], Err(ValueError))
        else Prepend([Sleep(d)], Dispatch(data, j, tempo))
  }

  /** The `while i < len(track_data)` loop from index `i`: the actions of
      every step, and either the tempo in force when the loop ends or the
      exception that stopped it. */
  function TrackLoop(data: seq<byte>, i: nat, tempo: nat, division: nat): Run<nat>
    decreases |data| - i
  {
    if i >= |data| then Run([], Ok(tempo))
    else
      var s := EventStep(data, i, tempo, division);
      match s.result
      case Err(e) => Run(s.trace, Err(e))
      case Ok(c) => Prepend(s.trace, TrackLoop(data, c.pos, c.tempo, division))
  }

  /** How many bytes each kind of event consumes. `j` is the index of the
      status byte. */
  lemma DispatchConsumption(data: seq<byte>, j: nat, tempo: nat)
    requires j < |data|
    ensures data[j] == 0xFF && j + 1 < |data| && data[j + 1] != 0x51 && DecodeVlq(data, j + 2).Ok? ==>
      var v := DecodeVlq(data, j + 2).value;
      Dispatch(data, j, tempo) == Run([], Ok(Cursor(v.next + v.value, tempo)))
    ensures (data[j] == 0xF0 || data[j] == 0xF7) && DecodeVlq(data, j + 1).Ok? ==>
      var v := DecodeVlq(data, j + 1).value;
      Dispatch(data, j, tempo) == Run([], Ok(Cursor(v.next + v.value, tempo)))
    ensures IsNoteStatus(data[j]) && data[j] >= 0x80 && j + 2 < |data| ==>
      Dispatch(data, j, tempo).result == Ok(Cursor(j + 3, tempo)) && |Dispatch(data, j, tempo).trace| == 1
    ensures data[j] != 0xFF && data[j] != 0xF0 && data[j] != 0xF7 && !IsNoteStatus(data[j]) ==>
      Dispatch(data, j, tempo) == Run([], Ok(Cursor(j + 1, tempo)))
  {
  }

  /** Set Tempo: after `FF 51` and the length quantity, the next three bytes
      are the new tempo, big-endian; the cursor then moves by the declared
      length from the end of the length quantity, whatever that length is. */
  lemma SetTempoEvent(data: seq<byte>, j: nat, tempo: nat, length: nat, k: nat)
    requires j + 1 < |data| && data[j] == 0xFF && data[j + 1] == 0x51
    requires DecodeVlq(data, j + 2) == Ok(Vlq(length, k))
    requires k + 3 <= |data|
    ensures data[k] as int * 65536 + data[k + 1] as int * 256 + data[k + 2] as int > 0 ==>
      Dispatch(data, j, tempo) ==
        Run([], Ok(Cursor(k + length, data[k] as int * 65536 + data[k + 1] as int * 256 + data[k + 2] as int)))
    ensures data[k] == 0 && data[k + 1] == 0 && data[k + 2] == 0 ==>
      Dispatch(data, j, tempo) == Run([], Err(ZeroDivisionError))
  {
    BigEndianThree(data[k..k + 3]);
  }

  /** A Note On whose velocity is zero does exactly what a Note Off for the
      same note and channel does, whatever that Note Off's velocity. */
  lemma ZeroVelocityNoteOn(data: seq<byte>, j: nat, tempo: nat, velocity: byte)
    requires j + 2 < |data| && Kind(data[j]) == 9 && data[j + 2] == 0
    ensures var off := data[j := 0x80 + data[j] % 16][j + 2 := velocity];
      Dispatch(data, j, tempo) == Dispatch(off, j, tempo) &&
      Dispatch(data, j, tempo) == Run([NoteOff(data[j + 1])], Ok(Cursor(j + 3, tempo)))
  {
  }

  /** A tempo set by one event is the tempo of the delay of the next one. */
  lemma TempoReachesNextEvent(data: seq<byte>, i: nat, tempo: nat, division: nat)
    requires i < |data|
    requires EventStep(data, i, tempo, division).result.Ok?
    requires EventStep(data, i, tempo, division).result.value.pos < |data|
    ensures var s := EventStep(data, i, tempo, division);
      var c := s.result.value;
      TrackLoop(data, i, tempo, division).trace[..|s.trace|] == s.trace &&
      (EventStep(data, c.pos, c.tempo, division).trace != [] ==>
        |TrackLoop(data, i, tempo, division).trace| > |s.trace| &&
        TrackLoop(data, i, tempo, division).trace[|s.trace|] ==
          Sleep(DelayMs(DecodeVlq(data, c.pos).value.value, c.tempo, division).value))
  {
    var s := EventStep(data, i, tempo, division);
    var c := s.result.value;
    var rest := TrackLoop(data, c.pos, c.tempo, division);
    assert TrackLoop(data, i, tempo, division).trace == s.trace + rest.trace;
    var s2 := EventStep(data, c.pos, c.tempo, division);
    if s2.trace != [] {
      assert rest.trace[..|s2.trace|] == s2.trace by {
        if s2.result.Ok? {
          assert rest.trace == s2.trace + TrackLoop(data, s2.result.value.pos, s2.result.value.tempo, division).trace;
        }
      }
    }
  }

  /** The tempo passed to an event's status byte only decides the tempo it
      hands on when the event does not set one. */
  lemma DispatchIgnoresTempo(data: seq<byte>, j: nat, tempo1: nat, tempo2: nat)
    ensures Dispatch(data, j, tempo1).trace == Dispatch(data, j, tempo2).trace
    ensures Dispatch(data, j, tempo1).result.Ok? == Dispatch(data, j, tempo2).result.Ok?
    ensures Dispatch(data, j, tempo1).result.Ok? ==>
      Dispatch(data, j, tempo1).result.value.pos == Dispatch(data, j, tempo2).result.value.pos
  {
  }

  /** In metrical mode no delay is negative, so the sleep never raises: an
      event whose delta-time decodes is slept and dispatched. */
  lemma MetricalEventSleeps(data: seq<byte>, i: nat, tempo: nat, division: nat)
    requires !IsSmpte(division) && division > 0 && DecodeVlq(data, i).Ok?
    ensures var v := DecodeVlq(data, i).value;
      EventStep(data, i, tempo, division) ==
        Prepend([Sleep(DelayMs(v.value, tempo, division).value)], Dispatch(data, v.next, tempo))
  {
    DelayMsValue(DecodeVlq(data, i).value.value, tempo, division);
  }

  /** A step whose delta-time decodes to a delay that can be slept
      performs that sleep and then the status dispatch at the byte after the
      delta-time, under the same tempo. */
  lemma SleepThenDispatch(data: seq<byte>, i: nat, tempo: nat, division: nat)
    requires DecodeVlq(data, i).Ok?
    requires DelayMs(DecodeVlq(data, i).value.value, tempo, division).Ok?
    requires DelayMs(DecodeVlq(data, i).value.value, tempo, division).value >= 0.0
    ensures var v := DecodeVlq(data, i).value;
      EventStep(data, i, tempo, division) ==
        Prepend([Sleep(DelayMs(v.value, tempo, division).value)], Dispatch(data, v.next, tempo))
  {
  }

  /** In SMPTE mode with a non-zero number of ticks per frame, an event at
      delta-time 0 sleeps for zero milliseconds and is dispatched: these are
      the only SMPTE events that get played. */
  lemma SmpteZeroDeltaPlays(data: seq<byte>, i: nat, tempo: nat, division: nat)
    requires IsSmpte(division) && TicksPerFrame(division) != 0
    requires DecodeVlq(data, i).Ok? && DecodeVlq(data, i).value.value == 0
    ensures EventStep(data, i, tempo, division) ==
      Prepend([Sleep(0.0)], Dispatch(data, DecodeVlq(data, i).value.next, tempo))
  {
    DelayMsValue(0, tempo, division);
  }

  /** In SMPTE mode with no ticks per frame, every event whose delta-time
      decodes raises ZeroDivisionError before it sleeps, at delta-time 0 too. */
  lemma SmpteNoTicksRaises(data: seq<byte>, i: nat, tempo: nat, division: nat)
    requires IsSmpte(division) && TicksPerFrame(division) == 0 && DecodeVlq(data, i).Ok?
    ensures EventStep(data, i, tempo, division) == Run([], Err(ZeroDivisionError))
  {
  }

  /** In SMPTE mode the frame rate is negative, so an event with a positive
      delta-time raises before it sleeps: `ZeroDivisionError` when the ticks
      per frame are zero, `ValueError` from the sleep otherwise. */
  lemma SmptePositiveDeltaRaises(data: seq<byte>, i: nat, tempo: nat, division: nat)
    requires IsSmpte(division) && DecodeVlq(data, i).Ok? && DecodeVlq(data, i).value.value > 0
    ensures EventStep(data, i, tempo, division) ==
      Run([], Err(if TicksPerFrame(division) == 0 then ZeroDivisionError else ValueError))
  {
    if TicksPerFrame(division) != 0 {
      DelayMsValue(DecodeVlq(data, i).value.value, tempo, division);
    }
  }

  /** In SMPTE mode every sleep a track performs is of length zero: only
      events at delta-time 0 get past the sleep. */
  lemma {:induction false} SmpteSleepsAreZero(data: seq<byte>, i: nat, tempo: nat, division: nat)
    requires IsSmpte(division)
    ensures forall a | a in TrackLoop(data, i, tempo, division).trace :: a.Sleep? ==> a.ms == 0.0
    decreases |data| - i
  {
    if i < |data| {
      var s := EventStep(data, i, tempo, division);
      if s.trace != [] {
        DelayMsValue(DecodeVlq(data, i).value.value, tempo, division);
      }
      if s.result.Ok? {
        SmpteSleepsAreZero(data, s.result.value.pos, s.result.value.tempo, division);
      }
    }
  }

  /** In SMPTE mode the tempo, whether the initial one or one set by a Set
      Tempo event, never reaches the actions: a track performs the same
      actions, and fails or not alike, under any starting tempo. */
  lemma {:induction false} SmpteTrackIgnoresTempo(data: seq<byte>, i: nat, tempo1: nat, tempo2: nat, division: nat)
    requires IsSmpte(division)
    ensures TrackLoop(data, i, tempo1, division).trace == TrackLoop(data, i, tempo2, division).trace
    ensures TrackLoop(data, i, tempo1, division).result.Ok? == TrackLoop(data, i, tempo2, division).result.Ok?
    decreases |data| - i
  {
    if i < |data| {
      var s1, s2 := EventStep(data, i, tempo1, division), EventStep(data, i, tempo2, division);
      match DecodeVlq(data, i)
      case Err(_) =>
      case Ok(Vlq(delta, j)) =>
        SmpteIgnoresTempo(delta, tempo1, tempo2, division);
        DispatchIgnoresTempo(data, j, tempo1, tempo2);
        if s1.result.Ok? {
          var c1, c2 := s1.result.value, s2.result.value;
          SmpteTrackIgnoresTempo(data, c1.pos, c1.tempo, c2.tempo, division);
        }
    }
  }

  /** The loop body, lines 70 to 102 of the player, with the solenoid outputs
      in `noids`: the delta-time, the delay and the sleep. */
  method PlayEvent(data: seq<byte>, i: nat, tempo: nat, division: nat, noids: array<bool>)
    returns (trace: seq<Action>, r: Result<Cursor>)
    requires noids.Length == |Notes|
    modifies noids
    ensures Run(trace, r) == EventStep(data, i, tempo, division)
    ensures noids[..] == Actuate(old(noids[..]), trace)
  {
    var delta := ReadVariableLength(data, i);
    if delta.Err? {
      return [], Err(delta.error);
    }
    var d := DelayMs(delta.value.value, tempo, division);
    if d.Err? {
      return [], Err(d.error);
    }
    if d.value < 0.0 {
      return [], Err(ValueError);
    }
    assert Actuate(old(noids[..]), [Sleep(d.value)]) == old(noids[..]);
    var rest;
    rest, r := PlayStatus(data, delta.value.next, tempo, noids);
    ActuateAppend(old(noids[..]), [Sleep(d.value)], rest);
    trace := [Sleep(d.value)] + rest;
  }

  /** The rest of the loop body: the status byte at `j` and its event. */
  method PlayStatus(data: seq<byte>, j: nat, tempo: nat, noids: array<bool>)
    returns (trace: seq<Action>, r: Result<Cursor>)
    requires noids.Length == |Notes|
    modifies noids
    ensures Run(trace, r) == Dispatch(data, j, tempo)
    ensures noids[..] == Actuate(old(noids[..]), trace)
  {
    trace := [];
    if j >= |data| {
      return trace, Err(IndexError);
    }
    var eventType := data[j];
    var i := j + 1;
    if eventType == 0xFF {
      if i >= |data| {
        return trace, Err(IndexError);
      }
      var metaType := data[i];
      var length := ReadVariableLength(data, i + 1);
      if length.Err? {
        return trace, Err(length.error);
      }
      i := length.value.next;
      var newTempo := tempo;
      if metaType == 0x51 {
        if i + 3 > |data| {
          return trace, Err(StructError);
        }
        newTempo := BigEndian(data[i..i + 3]);
        if newTempo == 0 {
          return trace, Err(ZeroDivisionError);
        }
      }
      return trace, Ok(Cursor(i + length.value.value, newTempo));
    } else if eventType == 0xF0 || eventType == 0xF7 {
      var length := ReadVariableLength(data, i);
      if length.Err? {
        return trace, Err(length.error);
      }
      return trace, Ok(Cursor(length.value.next + length.value.value, tempo));
    } else if eventType >= 0x80 && IsNoteStatus(eventType) {
      if i + 1 >= |data| {
        return trace, Err(IndexError);
      }
      var note, velocity := data[i], data[i + 1];
      if Kind(eventType) == 9 && velocity > 0 {
        HandleNoteOn(noids, note);
        trace := [NoteOn(note)];
      } else {
        HandleNoteOff(noids, note);
        trace := [NoteOff(note)];
      }
      assert trace[..0] == [];
      return trace, Ok(Cursor(i + 2, tempo));
    }
    return trace, Ok(Cursor(i, tempo));
  }

  /** The track loop: `i` starts at 0 and the events are played until the
      index reaches or passes the end of the track data, or a read fails. */
  method PlayTrack(data: seq<byte>, tempo0: nat, division: nat, noids: array<bool>)
    returns (trace: seq<Action>, r: Result<nat>)
    requires noids.Length == |Notes|
    modifies noids
    ensures Run(trace, r) == TrackLoop(data, 0, tempo0, division)
    ensures noids[..] == Actuate(old(noids[..]), trace)
  {
    var i, tempo := 0, tempo0;
    trace := [];
    while i < |data|
      invariant Prepend(trace, TrackLoop(data, i, tempo, division)) == TrackLoop(data, 0, tempo0, division)
      invariant noids[..] == Actuate(old(noids[..]), trace)
      decreases |data| - i
    {
      var steps, step := PlayEvent(data, i, tempo, division, noids);
      ActuateAppend(old(noids[..]), trace, steps);
      if step.Err? {
        assert TrackLoop(data, i, tempo, division) == Run(steps, Err(step.error));
        return trace + steps, Err(step.error);
      }
      PrependTwice(trace, steps, TrackLoop(data, step.value.pos, step.value.tempo, division));
      trace := trace + steps;
      i, tempo := step.value.pos, step.value.tempo;
    }
    return trace, Ok(tempo);
  }
}
