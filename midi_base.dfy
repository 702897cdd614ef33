/** Shared vocabulary of the solenoid player: bytes, the ways playback of a
    file ends early, and the trace of actions that playback performs. */
module MidiBase {

  /** One byte of a MIDI file, as Python's `bytes` indexing yields it. */
  type byte = b: int | 0 <= b < 256

  /** Why playback of a file stops before its last track. `NotMidiFile` is
      the early return on a bad `MThd` header; the others are the Python
      exceptions the player catches, each of which ends the whole file.
      `ValueError` is what `time.sleep` raises for a negative length. */
  datatype Failure = NotMidiFile | IndexError | StructError | ZeroDivisionError | ValueError

  datatype Result<T> = Ok(value: T) | Err(error: Failure)

  /** What playback does to the outside world: block for an exact number of
      milliseconds, or hand a note to `handle_note_on` / `handle_note_off`. */
  datatype Action = Sleep(ms: real) | NoteOn(note: byte) | NoteOff(note: byte)

  /** The actions performed so far and how the computation ended. Actions
      performed before an exception was raised stay performed. */
  datatype Run<T> = Run(trace: seq<Action>, result: Result<T>)

  /** `r`, preceded by the actions `prefix` that were performed before it. */
  function Prepend<T>(prefix: seq<Action>, r: Run<T>): Run<T>
  {
    Run(prefix + r.trace, r.result)
  }

  lemma PrependTwice<T>(first: seq<Action>, second: seq<Action>, r: Run<T>)
    ensures Prepend(first, Prepend(second, r)) == Prepend(first + second, r)
  {
    assert first + (second + r.trace) == (first + second) + r.trace;
  }

  /** Performing nothing first changes nothing. */
  lemma PrependNothing<T>(r: Run<T>)
    ensures Prepend([], r) == r
  {
    assert [] + r.trace == r.trace;
  }

  /** Python's `s[:n]`: the slice stops silently at the end of `s`. */
  function Prefix(s: seq<byte>, n: nat): (p: seq<byte>)
    ensures |p| == if |s| < n then |s| else n
    ensures p == s[..|p|]
  {
    if |s| <= n then s else s[..n]
  }

  /** The unsigned big-endian integer spelled by `s` (`struct.unpack(">I")`,
      `">H"`). */
  function BigEndian(s: seq<byte>): nat
  {
    if s == [] then 0 else BigEndian(s[..|s| - 1]) * 256 + s[|s| - 1]
  }

  /** A two-byte field: the first byte is the high one. */
  lemma BigEndianTwo(s: seq<byte>)
    requires |s| == 2
    ensures BigEndian(s) == s[0] as int * 256 + s[1] as int
  {
    assert s[..1][..0] == [];
    assert BigEndian(s[..1]) == s[0];
  }

  /** A three-byte field, as the Set Tempo payload. */
  lemma BigEndianThree(s: seq<byte>)
    requires |s| == 3
    ensures BigEndian(s) == s[0] as int * 65536 + s[1] as int * 256 + s[2] as int
  {
    BigEndianTwo(s[..2]);
  }

  /** The Set Tempo payload is unpacked as `>I` of a zero byte followed by
      the three tempo bytes: the zero byte adds nothing. */
  lemma LeadingZero(s: seq<byte>)
    requires |s| == 3
    ensures BigEndian([0] + s) == BigEndian(s)
  {
    BigEndianFour([0] + s);
    BigEndianThree(s);
  }

  /** A four-byte field. */
  lemma BigEndianFour(s: seq<byte>)
    requires |s| == 4
    ensures BigEndian(s) == s[0] as int * 0x100_0000 + s[1] as int * 65536 + s[2] as int * 256 + s[3] as int
  {
    BigEndianThree(s[..3]);
  }
}
