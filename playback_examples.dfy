/** Whole files played through the model, byte by byte. */
module PlaybackExamples {
  import opened MidiBase
  import opened Vlq
  import opened MidiHeader
  import opened TempoClock
  import opened NoteMap
  import opened TrackParser
  import opened Playback

  /** `MThd`, length 6, format 0, one track, 480 ticks per quarter note. */
  const OneTrackHeader: seq<byte> := [0x4D, 0x54, 0x68, 0x64, 0, 0, 0, 6, 0, 0, 0, 1, 0x01, 0xE0]

  /** Note On 60 velocity 100 at delta 0; Note Off 60 velocity 0 480 ticks
      later. */
  const SingleNoteTrack: seq<byte> := [0x00, 0x90, 0x3C, 0x64, 0x83, 0x60, 0x80, 0x3C, 0x00]

  /** `MTrk` with a declared length of 9 bytes. */
  const SingleNoteChunkHeader: seq<byte> := [0x4D, 0x54, 0x72, 0x6B, 0, 0, 0, 9]

  const SingleNoteFile: seq<byte> := OneTrackHeader + SingleNoteChunkHeader + SingleNoteTrack

  const AllOff: seq<bool> := [false, false, false, false]

  lemma OneTrackHeaderParses()
    ensures ParseHeader(OneTrackHeader) == Ok(Header(0, 1, 480))
  {
    assert OneTrackHeader[..4] == MThd && OneTrackHeader[4..8] == [0, 0, 0, 6];
  }

  lemma SingleNoteFirstEvent()
    ensures EventStep(SingleNoteTrack, 0, DefaultTempo, 480) == Run([Sleep(0.0), NoteOn(60)], Ok(Cursor(4, DefaultTempo)))
  {
    assert DecodeVlq(SingleNoteTrack, 0) == Ok(Vlq(0, 1));
  }

  lemma SingleNoteSecondEvent()
    ensures EventStep(SingleNoteTrack, 4, DefaultTempo, 480) == Run([Sleep(500.0), NoteOff(60)], Ok(Cursor(9, DefaultTempo)))
  {
    assert DecodeVlq(SingleNoteTrack, 4) == Ok(Vlq(480, 6));
  }

  /** What the single-note file does. */
  const SingleNoteTrace: seq<Action> := [Sleep(0.0), NoteOn(60), Sleep(500.0), NoteOff(60)]

  lemma SingleNoteTrackPlays()
    ensures TrackLoop(SingleNoteTrack, 0, DefaultTempo, 480) == Run(SingleNoteTrace, Ok(DefaultTempo))
  {
    SingleNoteFirstEvent();
    SingleNoteSecondEvent();
    assert TrackLoop(SingleNoteTrack, 9, DefaultTempo, 480) == Run([], Ok(DefaultTempo));
  }

  /** The minimal single-track file: the solenoid for note 60 goes on at
      once, and off again after 500 ms, one quarter note at the default tempo
      of 120 beats per minute; no other solenoid moves. */
  lemma SingleNoteFilePlays()
    ensures Play(SingleNoteFile) == Run(SingleNoteTrace, Ok(()))
  {
    SingleNoteTrackPlays();
    OneTrackHeaderParses();
    BigEndianFour(SingleNoteChunkHeader[4..8]);
    SingleTrackFile(OneTrackHeader, SingleNoteChunkHeader, SingleNoteTrack);
  }

  lemma SingleNoteSolenoids()
    ensures Actuate(AllOff, SingleNoteTrace[..2]) == [true, false, false, false]
    ensures Actuate(AllOff, SingleNoteTrace) == AllOff
  {
    var t := SingleNoteTrace;
    assert t[..2][..1] == [Sleep(0.0)] && t[..1] == [Sleep(0.0)] && [Sleep(0.0)][..0] == [];
    assert t[..3][..2] == t[..2] && t[..4] == t && t[..3] == t[..2] + [Sleep(500.0)];
  }

  /** Under the SMPTE division `0xE728` a note at delta-time 0 sleeps for
      zero milliseconds and is played. */
  lemma SmpteNoteAtDeltaZero()
    ensures EventStep([0x00, 0x90, 0x3C, 0x64], 0, DefaultTempo, 0xE728) ==
      Run([Sleep(0.0), NoteOn(60)], Ok(Cursor(4, DefaultTempo)))
  {
    assert DecodeVlq([0x00, 0x90, 0x3C, 0x64], 0) == Ok(Vlq(0, 1));
  }

  /** Under the same division a note one tick later gets a negative delay,
      and the sleep raises `ValueError` before the note is played. */
  lemma SmpteNoteAfterOneTickRaises()
    ensures EventStep([0x01, 0x90, 0x3C, 0x64], 0, DefaultTempo, 0xE728) == Run([], Err(ValueError))
  {
    assert DecodeVlq([0x01, 0x90, 0x3C, 0x64], 0) == Ok(Vlq(1, 1));
  }

  /** Under the division `0xE700`, with no ticks per frame, even a note at
      delta-time 0 raises, since the delay divides by zero. */
  lemma SmpteNoTicksNoteRaises()
    ensures EventStep([0x00, 0x90, 0x3C, 0x64], 0, DefaultTempo, 0xE700) == Run([], Err(ZeroDivisionError))
  {
    assert DecodeVlq([0x00, 0x90, 0x3C, 0x64], 0) == Ok(Vlq(0, 1));
  }

  /** Note On 60 velocity 100, then the same note again in running status
      (the status byte left out, as the standard allows). */
  const RunningStatusTrack: seq<byte> := [0x00, 0x90, 0x3C, 0x64, 0x00, 0x3C, 0x00]

  /** The player does not implement running status: the note number `0x3C`
      is taken for a status byte and consumed alone, the velocity byte is
      read as a delta-time, and reading a status byte past the end of the
      data raises. The note is left sounding, and the exception ends the
      whole file. */
  lemma RunningStatusAborts()
    ensures TrackLoop(RunningStatusTrack, 0, DefaultTempo, 480) ==
      Run([Sleep(0.0), NoteOn(60), Sleep(0.0), Sleep(0.0)], Err(IndexError))
    ensures Actuate(AllOff, [Sleep(0.0), NoteOn(60), Sleep(0.0), Sleep(0.0)]) == [true, false, false, false]
  {
    var d := RunningStatusTrack;
    assert DecodeVlq(d, 0) == Ok(Vlq(0, 1));
    assert EventStep(d, 0, DefaultTempo, 480) == Run([Sleep(0.0), NoteOn(60)], Ok(Cursor(4, DefaultTempo)));
    assert DecodeVlq(d, 4) == Ok(Vlq(0, 5));
    assert EventStep(d, 4, DefaultTempo, 480) == Run([Sleep(0.0)], Ok(Cursor(6, DefaultTempo)));
    assert DecodeVlq(d, 6) == Ok(Vlq(0, 7));
    assert EventStep(d, 6, DefaultTempo, 480) == Run([Sleep(0.0)], Err(IndexError));
    var t := [Sleep(0.0), NoteOn(60), Sleep(0.0), Sleep(0.0)];
    assert t[..3][..2] == t[..2] && t[..2][..1] == t[..1] && t[..1][..0] == [] && t[..4] == t;
  }
}
