/** `play_midi_file`: the header check, then every declared track in turn,
    each an `MTrk` chunk whose events are played by the track loop. The tempo
    is set to 500000 once per file and carried from track to track. */
module Playback {
  import opened MidiBase
  import opened MidiHeader
  import opened TempoClock
  import opened NoteMap
  import opened TrackParser

  /** The ASCII bytes of `MTrk`. */
  const MTrk: seq<byte> := [0x4D, 0x54, 0x72, 0x6B]

  /** `f.read(n)` with the file position at `pos`: at most `n` bytes, fewer
      near the end of the file, none at all at or past it. */
  function ReadAt(file: seq<byte>, pos: nat, n: nat): (chunk: seq<byte>)
    ensures |chunk| == if pos + n <= |file| then n else if pos <= |file| then |file| - pos else 0
    ensures chunk == file[if pos <= |file| then pos else |file|..][..|chunk|]
  {
    if |file| <= pos then [] else Prefix(file[pos..], n)
  }

  /** A read that fits in the file gives exactly the next `n` bytes. */
  lemma ReadWithin(file: seq<byte>, pos: nat, n: nat)
    requires pos + n <= |file|
    ensures ReadAt(file, pos, n) == file[pos..pos + n]
  {
  }

  /** The open file: its bytes and the position that `read` advances. */
  class FileReader {
    const content: seq<byte>
    var pos: nat

    ghost predicate Valid()
      reads this
    {
      pos <= |content|
    }

    constructor (content: seq<byte>)
      ensures Valid() && this.content == content && pos == 0
    {
      this.content := content;
      pos := 0;
    }

    method Read(n: nat) returns (chunk: seq<byte>)
      requires Valid()
      modifies this`pos
      ensures Valid()
      ensures chunk == ReadAt(content, old(pos), n) && pos == old(pos) + |chunk|
    {
      chunk := ReadAt(content, pos, n);
      pos := pos + |chunk|;
    }
  }

  /** What a chunk header says: a chunk without the `MTrk` magic, to be
      passed over up to `next`, or a track whose data of the declared
      `length` starts at `start`. */
  datatype ChunkHeader = Foreign(next: nat) | TrackHeader(start: nat, length: nat)

  /** Reading the 8-byte chunk header at `pos`. Only the bytes of that read
      are consumed when the magic is wrong; a header cut short by the end of
      the file makes `struct.unpack` raise. */
  function ReadChunkHeader(file: seq<byte>, pos: nat): Result<ChunkHeader>
  {
    var trackHeader := ReadAt(file, pos, 8);
    if |trackHeader| < 4 || trackHeader[..4] != MTrk then Ok(Foreign(pos + |trackHeader|))
    else if |trackHeader| < 8 then Err(StructError)
    else Ok(TrackHeader(pos + 8, BigEndian(trackHeader[4..8])))
  }

  /** A whole chunk header with the wrong magic is skipped as 8 bytes,
      whatever length it declares. */
  lemma ForeignChunk(file: seq<byte>, pos: nat)
    requires pos + 8 <= |file| && file[pos..pos + 4] != MTrk
    ensures ReadChunkHeader(file, pos) == Ok(Foreign(pos + 8))
  {
    ReadWithin(file, pos, 8);
    assert Prefix(ReadAt(file, pos, 8), 4) == file[pos..pos + 4];
  }

  /** A whole `MTrk` header: the data starts just after it, with the
      big-endian length of its last four bytes. */
  lemma TrackChunkAt(file: seq<byte>, pos: nat)
    requires pos + 8 <= |file| && file[pos..pos + 4] == MTrk
    ensures ReadChunkHeader(file, pos) == Ok(TrackHeader(pos + 8, BigEndian(file[pos + 4..pos + 8])))
  {
    var header := ReadAt(file, pos, 8);
    ReadWithin(file, pos, 8);
    assert Prefix(header, 4) == file[pos..pos + 4];
    assert header[4..8] == file[pos + 4..pos + 8];
  }

  /** What the tracks loop does with the bytes of one track, starting under
      a given tempo: the track loop of `code.py` under the file's division.
      The file-level structure is stated for any such player. */
  type TrackPlayer = (seq<byte>, nat) -> Run<nat>

  function TrackLoopFor(division: nat): TrackPlayer
  {
    (data: seq<byte>, tempo: nat) => TrackLoop(data, 0, tempo, division)
  }

  /** One iteration of the tracks loop, from file position `pos`. */
  function ChunkStep(file: seq<byte>, pos: nat, tempo: nat, play: TrackPlayer): Run<Cursor>
  {
    match ReadChunkHeader(file, pos)
    case Err(e) => Run([], Err(e))
    case Ok(Foreign(next)) => Run([], Ok(Cursor(next, tempo)))
    case Ok(TrackHeader(start, length)) => TrackChunk(file, start, length, tempo, play)
  }

  /** The data of a chunk that starts at `pos` and declares `length` bytes:
      the bytes read (all that remain of the file when fewer than `length`
      do) go through the track loop. On success the cursor holds the file
      position after them and the tempo the track ended with. */
  function TrackChunk(file: seq<byte>, pos: nat, length: nat, tempo: nat, play: TrackPlayer): Run<Cursor>
  {
    var trackData := ReadAt(file, pos, length);
    var t := play(trackData, tempo);
    match t.result
    case Err(e) => Run(t.trace, Err(e))
    case Ok(tempo') => Run(t.trace, Ok(Cursor(pos + |trackData|, tempo')))
  }

  /** The tracks loop from file position `pos`, with `remaining` tracks left
      to play. A track that ends with an exception ends the file. */
  function PlayTracks(file: seq<byte>, pos: nat, remaining: nat, tempo: nat, play: TrackPlayer): Run<()>
    decreases remaining
  {
    if remaining == 0 then Run([], Ok(()))
    else
      var s := ChunkStep(file, pos, tempo, play);
      match s.result
      case Err(e) => Run(s.trace, Err(e))
      case Ok(c) => Prepend(s.trace, PlayTracks(file, c.pos, remaining - 1, c.tempo, play))
  }

  /** Playing the whole file: every action performed, and how playback
      ended. */
  function Play(file: seq<byte>): Run<()>
  {
    var header := ReadAt(file, 0, 14);
    match ParseHeader(header)
    case Err(e) => Run([], Err(e))
    case Ok(h) => PlayTracks(file, |header|, h.tracks, DefaultTempo, TrackLoopFor(h.division))
  }

  /** `play_midi_file` on the bytes of a file, with the solenoid outputs in
      `noids`. */
  method PlayMidiFile(file: seq<byte>, noids: array<bool>) returns (trace: seq<Action>, r: Result<()>)
    requires noids.Length == |Notes|
    modifies noids
    ensures Run(trace, r) == Play(file)
    ensures noids[..] == Actuate(old(noids[..]), trace)
  {
    var f := new FileReader(file);
    var header := f.Read(14);
    var h := ParseHeader(header);
    if h.Err? {
      return [], Err(h.error);
    }
    trace, r := PlayTracksFrom(f, h.value.tracks, h.value.division, noids);
  }

  /** The tracks loop on the open file, `tracks` times from the current file
      position, starting at the default tempo. */
  method PlayTracksFrom(f: FileReader, tracks: nat, division: nat, noids: array<bool>)
    returns (trace: seq<Action>, r: Result<()>)
    requires f.Valid() && noids.Length == |Notes|
    modifies f`pos, noids
    ensures Run(trace, r) == PlayTracks(f.content, old(f.pos), tracks, DefaultTempo, TrackLoopFor(division))
    ensures noids[..] == Actuate(old(noids[..]), trace)
  {
    var tempo := DefaultTempo;
    trace := [];
    ghost var play := TrackLoopFor(division);
    ghost var whole := PlayTracks(f.content, f.pos, tracks, tempo, play);
    PrependNothing(whole);
    for track := 0 to tracks
      invariant f.Valid()
      invariant Prepend(trace, PlayTracks(f.content, f.pos, tracks - track, tempo, play)) == whole
      invariant noids[..] == Actuate(old(noids[..]), trace)
    {
      ghost var start := f.pos;
      var steps, result := PlayChunk(f, tempo, division, noids);
      ActuateAppend(old(noids[..]), trace, steps);
      if result.Err? {
        PlayTracksStop(f.content, start, tracks - track, tempo, play, steps, result.error);
        return trace + steps, Err(result.error);
      }
      PlayTracksStep(f.content, start, tracks - track, tempo, play, steps, result.value);
      PrependTwice(trace, steps, PlayTracks(f.content, f.pos, tracks - track - 1, result.value.tempo, play));
      trace := trace + steps;
      tempo := result.value.tempo;
    }
    return trace, Ok(());
  }

  /** The body of the tracks loop on the open file: read a chunk header,
      `continue` past a chunk with the wrong magic, otherwise read and play
      its data. The file position ends where the cursor says. */
  method PlayChunk(f: FileReader, tempo: nat, division: nat, noids: array<bool>)
    returns (steps: seq<Action>, r: Result<Cursor>)
    requires f.Valid() && noids.Length == |Notes|
    modifies f`pos, noids
    ensures f.Valid()
    ensures Run(steps, r) == ChunkStep(f.content, old(f.pos), tempo, TrackLoopFor(division))
    ensures r.Ok? ==> f.pos == r.value.pos
    ensures noids[..] == Actuate(old(noids[..]), steps)
  {
    var trackHeader := f.Read(8);
    if Prefix(trackHeader, 4) != MTrk {
      return [], Ok(Cursor(f.pos, tempo));
    }
    if |trackHeader| < 8 {
      return [], Err(StructError);
    }
    steps, r := PlayTrackChunk(f, BigEndian(trackHeader[4..8]), tempo, division, noids);
  }

  /** Reading the chunk's data and playing its track. */
  method PlayTrackChunk(f: FileReader, length: nat, tempo: nat, division: nat, noids: array<bool>)
    returns (steps: seq<Action>, r: Result<Cursor>)
    requires f.Valid() && noids.Length == |Notes|
    modifies f`pos, noids
    ensures f.Valid()
    ensures Run(steps, r) == TrackChunk(f.content, old(f.pos), length, tempo, TrackLoopFor(division))
    ensures r.Ok? ==> f.pos == r.value.pos
    ensures noids[..] == Actuate(old(noids[..]), steps)
  {
    var trackData := f.Read(length);
    var result;
    steps, result := PlayTrack(trackData, tempo, division, noids);
    if result.Err? {
      return steps, Err(result.error);
    }
    return steps, Ok(Cursor(f.pos, result.value));
  }

  /** A chunk whose magic is not `MTrk` produces no action, and the next
      track is read 8 bytes further on: the chunk's declared length is not
      skipped. */
  lemma BadTrackHeaderSkipped(file: seq<byte>, pos: nat, remaining: nat, tempo: nat, play: TrackPlayer)
    requires pos + 8 <= |file| && file[pos..pos + 4] != MTrk && remaining > 0
    ensures PlayTracks(file, pos, remaining, tempo, play) == PlayTracks(file, pos + 8, remaining - 1, tempo, play)
  {
    ForeignChunk(file, pos);
    PrependNothing(PlayTracks(file, pos + 8, remaining - 1, tempo, play));
  }

  /** A chunk with a whole `MTrk` header whose track loop ends normally:
      the track's actions, and a cursor just past the data read, under the
      tempo the track ended with. */
  lemma GoodChunkStep(file: seq<byte>, pos: nat, tempo: nat, play: TrackPlayer)
    requires pos + 8 <= |file| && file[pos..pos + 4] == MTrk
    requires play(ReadAt(file, pos + 8, BigEndian(file[pos + 4..pos + 8])), tempo).result.Ok?
    ensures var data := ReadAt(file, pos + 8, BigEndian(file[pos + 4..pos + 8]));
      var t := play(data, tempo);
      ChunkStep(file, pos, tempo, play) == Run(t.trace, Ok(Cursor(pos + 8 + |data|, t.result.value)))
  {
    TrackChunkAt(file, pos);
  }

  /** A track with a good `MTrk` header whose loop ends normally: its
      actions come first, then the remaining tracks play from just past its
      data under the tempo it ended with. */
  lemma GoodTrackThenRest(file: seq<byte>, pos: nat, remaining: nat, tempo: nat, play: TrackPlayer)
    requires pos + 8 <= |file| && file[pos..pos + 4] == MTrk && remaining > 0
    requires play(ReadAt(file, pos + 8, BigEndian(file[pos + 4..pos + 8])), tempo).result.Ok?
    ensures var data := ReadAt(file, pos + 8, BigEndian(file[pos + 4..pos + 8]));
      var t := play(data, tempo);
      PlayTracks(file, pos, remaining, tempo, play) ==
        Prepend(t.trace, PlayTracks(file, pos + 8 + |data|, remaining - 1, t.result.value, play))
  {
    var data := ReadAt(file, pos + 8, BigEndian(file[pos + 4..pos + 8]));
    var t := play(data, tempo);
    var c := Cursor(pos + 8 + |data|, t.result.value);
    GoodChunkStep(file, pos, tempo, play);
    PlayTracksStep(file, pos, remaining, tempo, play, t.trace, c);
    assert c.pos == pos + 8 + |data| && c.tempo == t.result.value;
  }

  /** One turn of the tracks loop that ends normally: its actions, then the
      remaining tracks from where it left the file, under the tempo it left. */
  lemma PlayTracksStep(file: seq<byte>, pos: nat, remaining: nat, tempo: nat, play: TrackPlayer, steps: seq<Action>, c: Cursor)
    requires remaining > 0 && ChunkStep(file, pos, tempo, play) == Run(steps, Ok(c))
    ensures PlayTracks(file, pos, remaining, tempo, play) == Prepend(steps, PlayTracks(file, c.pos, remaining - 1, c.tempo, play))
  {
  }

  /** One turn of the tracks loop that raises: its actions are the last. */
  lemma PlayTracksStop(file: seq<byte>, pos: nat, remaining: nat, tempo: nat, play: TrackPlayer, steps: seq<Action>, e: Failure)
    requires remaining > 0 && ChunkStep(file, pos, tempo, play) == Run(steps, Err(e))
    ensures PlayTracks(file, pos, remaining, tempo, play) == Run(steps, Err(e))
  {
  }

  /** An exception inside a track ends the whole file: the tracks after it
      are never played. */
  lemma TrackErrorEndsFile(file: seq<byte>, pos: nat, remaining: nat, tempo: nat, play: TrackPlayer)
    requires pos + 8 <= |file| && file[pos..pos + 4] == MTrk && remaining > 0
    requires play(ReadAt(file, pos + 8, BigEndian(file[pos + 4..pos + 8])), tempo).result.Err?
    ensures var t := play(ReadAt(file, pos + 8, BigEndian(file[pos + 4..pos + 8])), tempo);
      PlayTracks(file, pos, remaining, tempo, play) == Run(t.trace, Err(t.result.error))
  {
    TrackChunkAt(file, pos);
  }

  /** Tracks declared beyond the end of the file read nothing, do nothing
      and raise nothing. */
  lemma {:induction false} TracksPastEndAreSilent(file: seq<byte>, remaining: nat, tempo: nat, play: TrackPlayer)
    ensures PlayTracks(file, |file|, remaining, tempo, play) == Run([], Ok(()))
    decreases remaining
  {
    if remaining > 0 {
      assert ReadAt(file, |file|, 8) == [];
      TracksPastEndAreSilent(file, remaining - 1, tempo, play);
    }
  }

  /** A file that fails the header check performs no action at all. */
  lemma BadHeaderDoesNothing(file: seq<byte>)
    requires ParseHeader(ReadAt(file, 0, 14)).Err?
    ensures Play(file).trace == [] && Play(file).result == Err(ParseHeader(ReadAt(file, 0, 14)).error)
  {
  }

  /** A file with a good header declaring one track, followed by one good
      chunk whose declared length is that of its data, plays exactly the
      events of that track, from the default tempo. */
  lemma SingleTrackFile(header: seq<byte>, chunk: seq<byte>, data: seq<byte>)
    requires |header| == 14 && ParseHeader(header).Ok? && ParseHeader(header).value.tracks == 1
    requires |chunk| == 8 && chunk[..4] == MTrk && BigEndian(chunk[4..8]) == |data|
    ensures var t := TrackLoop(data, 0, DefaultTempo, ParseHeader(header).value.division);
      Play(header + chunk + data) == Run(t.trace, if t.result.Ok? then Ok(()) else Err(t.result.error))
  {
    var file := header + chunk + data;
    assert ReadAt(file, 0, 14) == header;
    assert ReadAt(file, 14, 8) == chunk;
    assert ReadAt(file, 22, |data|) == data;
    var t := TrackLoop(data, 0, DefaultTempo, ParseHeader(header).value.division);
    if t.result.Ok? {
      PrependNothing(Run([], Ok(())));
      assert t.trace + [] == t.trace;
    }
  }
}
