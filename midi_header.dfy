/** The `MThd` header chunk that opens a Standard MIDI File: the magic, a
    big-endian length that must be 6, then three big-endian 16-bit fields. */
module MidiHeader {
  import opened MidiBase

  /** The ASCII bytes of `MThd`. */
  const MThd: seq<byte> := [0x4D, 0x54, 0x68, 0x64]

  datatype Header = Header(format: nat, tracks: nat, division: nat)

  /** The check of the 14 bytes `h` read at the start of the file, in the
      order the player makes it. A short `h` fails the magic comparison when
      it has fewer than 4 bytes; with 4 to 7 bytes the unpack of the length
      field raises; with 8 to 13 bytes it is rejected when the length field
      is not 6, and otherwise the unpack of the three fields raises. */
  function ParseHeader(h: seq<byte>): (r: Result<Header>)
    ensures r.Ok? <==> |h| >= 14 && h[..4] == MThd && h[4..8] == [0, 0, 0, 6]
    ensures r.Ok? ==> r.value.format == h[8] as int * 256 + h[9] as int
    ensures r.Ok? ==> r.value.tracks == h[10] as int * 256 + h[11] as int
    ensures r.Ok? ==> r.value.division == h[12] as int * 256 + h[13] as int
    ensures r.Ok? ==> r.value.format < 0x10000 && r.value.tracks < 0x10000 && r.value.division < 0x10000
    ensures r.Err? ==>
      (r.error == NotMidiFile <==> Prefix(h, 4) != MThd || (|h| >= 8 && h[4..8] != [0, 0, 0, 6]))
    ensures r.Err? ==> r.error == NotMidiFile || r.error == StructError
  {
    if Prefix(h, 4) != MThd then Err(NotMidiFile)
    else if |h| < 8 then Err(StructError)
    else if BigEndian(h[4..8]) != 6 then
      assert h[4..8] != [0, 0, 0, 6] by { BigEndianSix(h[4..8]); }
      Err(NotMidiFile)
    else if |h| < 14 then
      assert h[4..8] == [0, 0, 0, 6] by { BigEndianSix(h[4..8]); }
      Err(StructError)
    else
      assert h[4..8] == [0, 0, 0, 6] by { BigEndianSix(h[4..8]); }
      BigEndianTwo(h[8..10]);
      BigEndianTwo(h[10..12]);
      BigEndianTwo(h[12..14]);
      Ok(Header(BigEndian(h[8..10]), BigEndian(h[10..12]), BigEndian(h[12..14])))
  }

  /** A four-byte big-endian field equals 6 exactly when its bytes are
      `00 00 00 06`. */
  lemma BigEndianSix(s: seq<byte>)
    requires |s| == 4
    ensures BigEndian(s) == 6 <==> s == [0, 0, 0, 6]
  {
    BigEndianFour(s);
  }
}
