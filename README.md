# MIDI solenoid player: a Dafny model

`code.py` drives four solenoids from a Standard MIDI File. `play_midi_file` makes two checks on the 14-byte file header and one unpack:
- the header starts with `MThd`;
- its length field is 6;
- the last six bytes are unpacked as the format, the track count and the time division.

It then plays every declared `MTrk` chunk in turn. For each event in a track it:
1. decodes the event's variable-length delta-time;
2. turns the delta-time into a delay using the tempo (metrical division) or the frame rate (SMPTE division);
3. sleeps for that delay, which raises `ValueError` when the delay is negative;
4. interprets the status byte.

Status bytes are handled as follows:
- Meta events are skipped by their declared length, except Set Tempo, which changes the tempo.
- SysEx events are skipped by their declared length.
- Note On and Note Off drive the solenoid configured for the note, through `handle_note_on` / `handle_note_off`.
- Any other byte consumes only itself.

Any exception ends the whole file.

The model keeps the program's own structure:
- **`MidiBase`** defines bytes, the ways a file ends early, and the playback trace: `Sleep(ms)`, `NoteOn(n)` and `NoteOff(n)`.
- **`Vlq`** holds `read_variable_length`. It is a method with its loop, proved against a decoding function. It also holds an encoder and the round-trip lemma.
- **`MidiHeader`** holds the header check, in the order the code makes it.
- **`TempoClock`** holds the delay formula, with exact real division.
- **`NoteMap`** holds the note-to-solenoid map and the note handlers, as methods over the array of outputs.
- **`TrackParser`** holds one event step as functions and the track loop. Methods perform the same steps on the outputs and are proved equal to those functions.
- **`Playback`** holds the tracks loop and `play_midi_file`, with the open file as a class whose `read` advances a position.
- **`PlaybackExamples`** plays small files byte by byte.

The file-level functions and lemmas of `Playback` take the track player as a parameter: a function from a track's bytes and a starting tempo to a `Run`. `Play` passes the track loop under the file's division, so the lemmas about the file layout hold for the track loop and for any other player.

Each spec function returns a `Run`: the actions performed, together with the final state or the exception. Actions performed before an exception stay in the trace, as they do on the device. `NoteMap.Actuate` folds the note handlers over a trace. Each method that produces a trace (`PlayEvent`, `PlayStatus`, `PlayTrack`, `PlayTrackChunk`, `PlayChunk`, `PlayTracksFrom`, `PlayMidiFile`) has a contract that states three things:
- its trace equals the function's trace;
- its result equals the function's result;
- the solenoid array ends as `Actuate` of its old contents over that trace.

Where `code.py` departs from the Standard MIDI File 1.0 specification, the model follows the code:
- **SMPTE frame rate.** Standard MIDI File 1.0 stores an SMPTE division as the negated frame rate (-24, -25, -29 or -30) in two's complement in the high byte, and the ticks per frame in the low byte. The code computes the frame rate as `-(time_division >> 8)` on the unsigned division, which gives -128 to -255. For division `0xE728` (25 fps, 40 ticks per frame) the code uses -231, and 1000 ticks give a `d_ms` of -1000000/9240 ms instead of 1 s (`TempoClock.SmpteExample`). When the ticks per frame are non-zero, every SMPTE delay for a positive delta-time is therefore negative, and `time.sleep` raises `ValueError` for it. So under such a division the file stops at the first event with a non-zero delta-time (`TrackParser.SmptePositiveDeltaRaises`, `PlaybackExamples.SmpteNoteAfterOneTickRaises`). Events at delta-time 0 before it sleep for zero milliseconds and are played (`TrackParser.SmpteZeroDeltaPlays`, `TrackParser.SmpteSleepsAreZero`). With 0 ticks per frame the file stops at its first event with ZeroDivisionError, at delta-time 0 too (`TrackParser.SmpteNoTicksRaises`, `PlaybackExamples.SmpteNoTicksNoteRaises`).
- **Chunks of another type.** Standard MIDI File 1.0 has readers skip a chunk of an unknown type by its declared length. The code reads the 8-byte header, consumes only those bytes, and counts the chunk as one of the declared tracks. The next track is read right after the header (`Playback.BadTrackHeaderSkipped`).
- **Running status.** Standard MIDI File 1.0 allows a channel message to leave out a status byte that repeats the previous one. The code does not support this: the first data byte is taken for a status byte (`PlaybackExamples.RunningStatusAborts`).
- **Other channel messages.** Program Change, Control Change and the other channel messages carry one or two data bytes. The code consumes only their status byte, and their data bytes are then read as delta-times and status bytes.

Two further facts about `code.py` shape the model:
- **Exceptions end the file.** A single `try` surrounds the whole file, so an exception inside a track ends the whole file, and the later tracks are not played (`Playback.TrackErrorEndsFile`).
- **Tempo across tracks.** The tempo is set once per file and carried from one track to the next (`Playback.GoodTrackThenRest`).

## Model

| member | source | states |
|---|---|---|
| MidiBase.Prefix | code.py:36 | Python's `s[:n]`: the result has length min(n, len(s)) and is a prefix of `s` |
| MidiBase.BigEndianTwo | code.py:40 | a `>H` field is high byte * 256 + low byte |
| MidiBase.BigEndian | code.py:36-40 | defines the unsigned big-endian value of a byte string, as `struct.unpack` reads `>I` and `>H` fields |
| MidiBase.BigEndianThree | code.py:87 | a three-byte field is the 24-bit big-endian value of its bytes |
| MidiBase.LeadingZero | code.py:87 | the Set Tempo payload `b'\x00' + data[i:i+3]` read as `>I` has the big-endian value of the three bytes alone |
| MidiBase.BigEndianFour | code.py:64 | a `>I` field is the 32-bit big-endian value of its four bytes |
| Vlq.Continues | code.py:121 | defines the test `byte & 0x80` that continues a quantity |
| Vlq.VlqFold | code.py:119 | defines the accumulation over a run of bytes: the value shifted left by seven bits, combined with the low seven bits of each byte |
| Vlq.DecodeVlq | code.py:114-123 | defines `read_variable_length(data, start)` as decoding from `start` with nothing accumulated |
| Vlq.DecodeFrom | code.py:114-123 | a decoded quantity ends past its first byte and within the data; the only failure is IndexError |
| Vlq.DecodeFromSpec | code.py:114-123 | the quantity ends at the first byte with bit 7 clear, and every byte before it has bit 7 set; its value is the 7-bit fold of those bytes; decoding fails exactly when no byte from the start on has bit 7 clear |
| Vlq.DecodeStopsAt | code.py:114-123 | bytes with bit 7 set followed by one with bit 7 clear are decoded as their fold, and decoding stops just past the last of them |
| Vlq.ReadVariableLength | code.py:114-123 | the `while True` loop returns exactly what the decoding function gives, value and next index, or the IndexError |
| Vlq.ContinuationBytes | code.py:121 | every leading digit of an encoding has bit 7 set |
| Vlq.Encode | code.py:114-123 | the encoding is non-empty, its last byte has bit 7 clear, and every other byte has it set |
| Vlq.VlqFoldAppend | code.py:119 | the accumulation over `a + b` is the accumulation over `b` started from the accumulation over `a` |
| Vlq.FoldContinuationBytes | code.py:119 | folding the base-128 digits of q gives back q |
| Vlq.FoldEncode | code.py:119 | folding the encoding of v gives back v |
| Vlq.DecodeEncoded | code.py:114-123 | round trip: wherever the encoding of v appears in the data, decoding from its first byte returns v and stops just past it |
| MidiHeader.ParseHeader | code.py:35-40 | accepted iff the header has 14 bytes, starts with `MThd` and has length field `00 00 00 06`; the three fields are the big-endian 16-bit values of bytes 8-13; NotMidiFile exactly on a wrong magic or a wrong length field, StructError on a header too short to unpack |
| MidiHeader.BigEndianSix | code.py:36 | the length field equals 6 iff its bytes are `00 00 00 06` |
| TempoClock.IsSmpte | code.py:72 | defines the test `time_division & 0x8000` |
| TempoClock.FramesPerSecond | code.py:73 | defines the frame rate `-(time_division >> 8)` on the unsigned division |
| TempoClock.TicksPerFrame | code.py:74 | defines `time_division & 0x00FF` |
| TempoClock.DelayMs | code.py:72-77 | the only failure is ZeroDivisionError, raised exactly when the divisor is zero: the ticks per frame in SMPTE mode, the division in metrical mode |
| TempoClock.DelayMsValue | code.py:72-77 | the delay times the divisor equals delta*tempo (metrical) or delta*1000 (SMPTE); metrical delays are non-negative, and SMPTE delays are negative exactly when the delta is positive and zero exactly when it is zero |
| TempoClock.SmpteDivisor | code.py:72-75 | in SMPTE mode the frame rate is at most -128, so the divisor is zero iff the ticks per frame are, and never positive |
| TempoClock.MetricalExample | code.py:45 | at the default tempo 500000 and division 480, 480 ticks last 500 ms |
| TempoClock.SmpteExample | code.py:72-75 | division `0xE728` gives frame rate -231 and 40 ticks per frame, so 1000 ticks give -1000000/9240 ms |
| TempoClock.SmpteIgnoresTempo | code.py:72-75 | in SMPTE mode the delay does not depend on the tempo |
| NoteMap.SetNote | code.py:126-137 | the solenoid configured for the note takes the new level, the others keep theirs, and a note with no solenoid changes nothing |
| NoteMap.Apply | code.py:99-102 | defines the effect of one action on the outputs: a sleep changes none, a note action sets the note's solenoid as its handler does; its contract states that the outputs keep their count |
| NoteMap.Actuate | code.py:68-102 | the outputs after the actions of a trace, in order; the outputs keep their count |
| NoteMap.ActuateAppend | code.py:68-102 | the outputs after actions `a + b` are the outputs after `b` applied to those after `a` |
| NoteMap.SleepsChangeNothing | code.py:79 | a trace made only of sleeps leaves every output as it was |
| NoteMap.HandleNoteOn | code.py:126-130 | the output array afterwards is the old one with the note's solenoid switched on |
| NoteMap.HandleNoteOff | code.py:133-137 | the output array afterwards is the old one with the note's solenoid switched off |
| TrackParser.Kind | code.py:94 | defines the high nibble `event_type & 0xF0` |
| TrackParser.IsNoteStatus | code.py:94 | defines the test for Note Off (`0x8n`) and Note On (`0x9n`) |
| TrackParser.Dispatch | code.py:80-102 | each event advances past its status byte; only an `FF 51` event changes the tempo, and only to a positive value; at most one action, which only a note status with two data bytes produces, advancing exactly 3 bytes; Note On with non-zero velocity is NoteOn, anything else NoteOff |
| TrackParser.EventStep | code.py:70-102 | a step advances at least two bytes; its first action is the sleep for the delta-time under the tempo before the event, and that sleep is non-negative; no later action of the step is a sleep |
| TrackParser.TrackLoop | code.py:68-102 | defines the `while i < len(track_data)` loop from index `i`: the actions of every step, then the final tempo or the exception that stopped the loop |
| TrackParser.DispatchConsumption | code.py:83-102 | a non-tempo meta or SysEx event moves the cursor to the end of its length quantity plus the declared length; a note message consumes 3 bytes and performs one action; any other status byte consumes only itself |
| TrackParser.SetTempoEvent | code.py:84-89 | after `FF 51` and the length, the three bytes are the new tempo in big-endian order, and the cursor moves by the declared length; a zero tempo raises ZeroDivisionError |
| TrackParser.ZeroVelocityNoteOn | code.py:94-102 | a Note On with velocity 0 behaves exactly as a Note Off for the same channel and note, whatever that Note Off's velocity, and performs NoteOff |
| TrackParser.DispatchIgnoresTempo | code.py:80-102 | the incoming tempo does not affect an event's actions, its success or where it ends |
| TrackParser.TempoReachesNextEvent | code.py:70-89 | the next event's sleep is computed with the tempo left by the previous event |
| TrackParser.MetricalEventSleeps | code.py:70-79 | in metrical mode, with a non-zero division, an event whose delta-time decodes always sleeps for its delay and goes on to its status byte |
| TrackParser.SleepThenDispatch | code.py:70-102 | a step whose delta-time decodes to a delay that can be slept performs that sleep and then the status dispatch at the byte after the delta-time, under the same tempo |
| TrackParser.SmpteZeroDeltaPlays | code.py:70-102 | in SMPTE mode with non-zero ticks per frame, an event at delta-time 0 sleeps 0 ms and is dispatched |
| TrackParser.SmpteNoTicksRaises | code.py:72-75 | in SMPTE mode with 0 ticks per frame, every event whose delta-time decodes raises ZeroDivisionError and performs nothing |
| TrackParser.SmptePositiveDeltaRaises | code.py:72-79 | in SMPTE mode an event with a positive delta-time performs nothing and raises: ZeroDivisionError when the ticks per frame are zero, otherwise ValueError from the negative sleep |
| TrackParser.SmpteSleepsAreZero | code.py:68-102 | in SMPTE mode every sleep a track performs has length zero |
| TrackParser.SmpteTrackIgnoresTempo | code.py:68-102 | in SMPTE mode a whole track performs the same actions, and succeeds or fails alike, under any starting tempo |
| TrackParser.PlayEvent | code.py:70-102 | one loop iteration on the outputs matches the step function, trace and result, and the outputs follow the trace |
| TrackParser.PlayStatus | code.py:80-102 | the status-byte dispatch on the outputs matches the dispatch function, and the outputs follow the trace |
| TrackParser.PlayTrack | code.py:68-102 | the track loop on the outputs matches the loop function (trace, final tempo or exception), and the outputs follow the trace |
| Playback.ReadAt | code.py:35 | `f.read(n)` gives the next n bytes, or all that remain when fewer do |
| Playback.ReadWithin | code.py:59-65 | a read that fits in the file gives exactly the next n bytes |
| Playback.FileReader.constructor | code.py:33 | a newly opened file is read from its first byte |
| Playback.FileReader.Read | code.py:59-65 | a read returns those bytes and advances the position by their count |
| Playback.ReadChunkHeader | code.py:59-64 | defines the reading of a chunk header: a wrong magic passes over the bytes read, a short `MTrk` header raises StructError, a whole one gives the data's start and declared length |
| Playback.ChunkStep | code.py:59-102 | defines one turn of the tracks loop: the chunk header, then the track when it is an `MTrk` chunk |
| Playback.TrackChunk | code.py:65-102 | defines playing a chunk's data: the bytes read go through the track player, and the cursor ends past them with the tempo the track ended with |
| Playback.PlayTracks | code.py:55-102 | defines the tracks loop over the remaining declared tracks, which stops at the first exception |
| Playback.Play | code.py:29-111 | defines the whole file: the header check, then the tracks loop from just past the header, at the default tempo, with the track loop under the file's division |
| Playback.ForeignChunk | code.py:59-62 | a whole chunk header without `MTrk` is passed over as its 8 bytes |
| Playback.TrackChunkAt | code.py:59-64 | a whole `MTrk` header gives a track whose data starts right after it, with the big-endian length of the header's last four bytes |
| Playback.PlayMidiFile | code.py:29-111 | playing a file on the outputs matches the whole-file function, trace and outcome, and the outputs follow the trace |
| Playback.PlayTracksFrom | code.py:55-102 | the `for` loop over the declared tracks, from the default tempo, matches the tracks function, trace and outcome, and the outputs follow the trace |
| Playback.PlayChunk | code.py:59-102 | one turn of the tracks loop on the open file matches the chunk step, and the file position ends where the step's cursor says |
| Playback.PlayTrackChunk | code.py:64-102 | reading a chunk's data and running the track loop on it matches the chunk function, and the position ends just past the data read |
| Playback.PlayTracksStep | code.py:55-102 | a turn of the tracks loop that ends normally contributes its actions, and the remaining tracks continue from its cursor |
| Playback.PlayTracksStop | code.py:55-111 | a turn that raises contributes its actions, and they are the last of the file |
| Playback.GoodChunkStep | code.py:59-102 | a good track that ends normally performs its track's actions, and its cursor is just past its data, with the tempo the track ended with |
| Playback.GoodTrackThenRest | code.py:55-102 | a good track's actions come first; the remaining tracks then start just past its data, with the tempo it ended with |
| Playback.BadTrackHeaderSkipped | code.py:59-62 | a chunk without `MTrk` performs nothing, and the next track is read 8 bytes further on |
| Playback.TrackErrorEndsFile | code.py:32-111 | an exception in a track ends the file after that track's actions; the later tracks are not played |
| Playback.TracksPastEndAreSilent | code.py:55-62 | tracks declared past the end of the file perform nothing and raise nothing |
| Playback.BadHeaderDoesNothing | code.py:35-38 | a rejected header performs no action and ends with its error |
| Playback.SingleTrackFile | code.py:29-102 | a one-track file with a correct chunk performs exactly the actions of its track loop from the default tempo |
| PlaybackExamples.OneTrackHeaderParses | code.py:35-40 | a concrete header gives format 0, one track, division 480 |
| PlaybackExamples.SingleNoteFirstEvent | code.py:70-102 | delta 0 then Note On 60 sleeps 0 ms and switches note 60 on |
| PlaybackExamples.SingleNoteSecondEvent | code.py:70-102 | delta 480 then Note Off 60 sleeps 500 ms and switches note 60 off |
| PlaybackExamples.SingleNoteTrackPlays | code.py:68-102 | the two-event track performs exactly those four actions and keeps the tempo |
| PlaybackExamples.SingleNoteFilePlays | code.py:29-111 | the whole single-note file performs those four actions and ends normally |
| PlaybackExamples.SingleNoteSolenoids | code.py:126-137 | the solenoid for note 60 is on between the two events and every output ends off |
| PlaybackExamples.SmpteNoteAtDeltaZero | code.py:70-102 | under division `0xE728` a note at delta-time 0 sleeps 0 ms and is played |
| PlaybackExamples.SmpteNoteAfterOneTickRaises | code.py:72-79 | under division `0xE728` a note at delta-time 1 performs nothing and raises ValueError |
| PlaybackExamples.SmpteNoTicksNoteRaises | code.py:72-75 | under division `0xE700` a note at delta-time 0 performs nothing and raises ZeroDivisionError |
| PlaybackExamples.RunningStatusAborts | code.py:69-102 | a repeated note in running status consumes its bytes wrongly and then raises IndexError, with note 60 left on |

## Left out

- Hardware: the pins, `digitalio` and the output objects are modelled as an array of booleans, one per note in `notes`.
- Time: `time.monotonic`, the 3-second start-up wait (code.py:47-51) and the timing logs are left out. Each `time.sleep` appears as a `Sleep(ms)` action carrying the exact delay in milliseconds. A negative delay raises `ValueError` instead, as `time.sleep` does for a negative length.
- Floating point: delays are exact real quotients, not IEEE doubles.
- Logging: all `print` output is left out. There is one exception. The tempo log at code.py:88 divides by the new tempo, so a zero tempo raises ZeroDivisionError, and the model keeps that error.
- File I/O: `open` and the file object are modelled as the file's bytes and a read position. An `OSError` from opening the file is not modelled.
- The start-up code and idle loop after line 140 are not part of this model: they open the file, find its size, call `play_midi_file` and idle.
- Bit operations: `(value << 7) | (byte & 0x7F)` is written `value * 128 + byte % 128`, which equals it because the shift leaves the low seven bits zero. `event_type & 0xF0` is written as the high nibble.
- Integer width: Python integers are unbounded, and so are the model's, so a long delta-time is neither truncated nor wrapped.
- TrackParser.Dispatch: its contract does not name the exception a truncated event raises. Its body raises IndexError while reading, StructError on a short tempo payload and ZeroDivisionError on a zero tempo.
