/** The Standard MIDI File variable-length quantity: seven data bits per
    byte, most significant byte first, bit 7 set on every byte but the last. */
module Vlq {
  import opened MidiBase

  /** A decoded quantity and the index just past its last byte. */
  datatype Vlq = Vlq(value: nat, next: nat)

  /** Bit 7 of `b` is set: another byte of the quantity follows. */
  predicate Continues(b: byte)
  {
    b >= 0x80
  }

  /** The accumulation `value = (value << 7) | (byte & 0x7F)` over the bytes
      `s`, starting from `acc`. The shift leaves the low seven bits zero, so
      the bitwise or is an addition. */
  function VlqFold(acc: nat, s: seq<byte>): nat
    decreases s
  {
    if s == [] then acc else VlqFold(acc * 128 + s[0] % 128, s[1..])
  }

  /** Decoding from index `i` with `acc` already accumulated: one byte at a
      time until a byte whose bit 7 is clear; running off the end of `data`
      is the `IndexError` that `data[i]` raises. */
  function DecodeFrom(data: seq<byte>, i: nat, acc: nat): (r: Result<Vlq>)
    decreases |data| - i
    ensures r.Ok? ==> i < r.value.next <= |data|
    ensures r.Err? ==> r.error == IndexError
  {
    if i >= |data| then Err(IndexError)
    else
      var v := acc * 128 + data[i] % 128;
      if !Continues(data[i]) then Ok(Vlq(v, i + 1))
      else DecodeFrom(data, i + 1, v)
  }

  /** The decoder characterised without reference to its recursion: the
      quantity ends at the first byte from `i` on whose bit 7 is clear, its
      value is the fold over the bytes up to there, and decoding fails
      exactly when every byte left has bit 7 set. */
  lemma {:induction false} DecodeFromSpec(data: seq<byte>, i: nat, acc: nat)
    decreases |data| - i
    ensures var r := DecodeFrom(data, i, acc);
      r.Ok? ==> (!Continues(data[r.value.next - 1]) &&
        (forall k :: i <= k < r.value.next - 1 ==> Continues(data[k])) &&
        r.value.value == VlqFold(acc, data[i..r.value.next]))
    ensures DecodeFrom(data, i, acc).Err? <==> forall k :: i <= k < |data| ==> Continues(data[k])
  {
    if i < |data| {
      var v := acc * 128 + data[i] % 128;
      if !Continues(data[i]) {
        assert data[i..i + 1][1..] == [];
      } else {
        DecodeFromSpec(data, i + 1, v);
        var r := DecodeFrom(data, i + 1, v);
        assert r.Ok? ==> data[i..r.value.next][1..] == data[i + 1..r.value.next];
      }
    }
  }

  /** Bytes `i` to `n - 1` of `data` spell a whole quantity: it is decoded
      as their fold, and decoding stops just past them. */
  lemma {:induction false} DecodeStopsAt(data: seq<byte>, i: nat, acc: nat, n: nat)
    requires i < n <= |data| && !Continues(data[n - 1])
    requires forall k :: i <= k < n - 1 ==> Continues(data[k])
    ensures DecodeFrom(data, i, acc) == Ok(Vlq(VlqFold(acc, data[i..n]), n))
    decreases n - i
  {
    var v := acc * 128 + data[i] % 128;
    if i == n - 1 {
      assert data[i..n][1..] == [];
    } else {
      DecodeStopsAt(data, i + 1, v, n);
      assert data[i..n][1..] == data[i + 1..n];
    }
  }

  /** What `read_variable_length(data, start)` returns. */
  function DecodeVlq(data: seq<byte>, start: nat): Result<Vlq>
  {
    DecodeFrom(data, start, 0)
  }

  /** `read_variable_length`: the `while True` loop that shifts in one byte
      at a time until a byte with bit 7 clear. */
  method ReadVariableLength(data: seq<byte>, start: nat) returns (r: Result<Vlq>)
    ensures r == DecodeVlq(data, start)
  {
    var value: nat := 0;
    var i := start;
    while true
      invariant DecodeFrom(data, i, value) == DecodeVlq(data, start)
      decreases |data| - i
    {
      if i >= |data| {
        return Err(IndexError);
      }
      var b := data[i];
      value := value * 128 + b % 128;
      i := i + 1;
      if !Continues(b) {
        return Ok(Vlq(value, i));
      }
    }
  }

  /** The base-128 digits of `q`, most significant first, each with bit 7
      set; none at all for zero. */
  function ContinuationBytes(q: nat): (c: seq<byte>)
    ensures forall k :: 0 <= k < |c| ==> Continues(c[k])
  {
    if q == 0 then [] else ContinuationBytes(q / 128) + [q % 128 + 128]
  }

  /** The canonical (shortest) encoding of `v`, as a MIDI file writer emits it. */
  function Encode(v: nat): (e: seq<byte>)
    ensures |e| >= 1 && !Continues(e[|e| - 1])
    ensures forall k :: 0 <= k < |e| - 1 ==> Continues(e[k])
  {
    ContinuationBytes(v / 128) + [v % 128]
  }

  lemma {:induction false} VlqFoldAppend(acc: nat, a: seq<byte>, b: seq<byte>)
    ensures VlqFold(acc, a + b) == VlqFold(VlqFold(acc, a), b)
    decreases a
  {
    if a == [] {
      assert a + b == b;
    } else {
      assert (a + b)[0] == a[0] && (a + b)[1..] == a[1..] + b;
      VlqFoldAppend(acc * 128 + a[0] % 128, a[1..], b);
    }
  }

  lemma {:induction false} FoldContinuationBytes(q: nat)
    ensures VlqFold(0, ContinuationBytes(q)) == q
  {
    if q != 0 {
      var b: byte := q % 128 + 128;
      FoldContinuationBytes(q / 128);
      VlqFoldAppend(0, ContinuationBytes(q / 128), [b]);
      assert [b][1..] == [];
      assert VlqFold(q / 128, [b]) == q / 128 * 128 + b % 128;
      assert b % 128 == q % 128;
    }
  }

  /** Folding the encoding of `v` gives back `v`. */
  lemma FoldEncode(v: nat)
    ensures VlqFold(0, Encode(v)) == v
  {
    FoldContinuationBytes(v / 128);
    VlqFoldAppend(0, ContinuationBytes(v / 128), [v % 128]);
  }

  /** Round trip: wherever the encoding of `v` stands in `data`, the decoder
      started on its first byte returns exactly `v` and stops just past its
      last byte, whatever follows. */
  lemma DecodeEncoded(data: seq<byte>, start: nat, v: nat)
    requires start + |Encode(v)| <= |data|
    requires data[start..start + |Encode(v)|] == Encode(v)
    ensures DecodeVlq(data, start) == Ok(Vlq(v, start + |Encode(v)|))
  {
    var e := Encode(v);
    var n := start + |e|;
    assert data[n - 1] == e[|e| - 1];
    assert forall k :: start <= k < n - 1 ==> data[k] == e[k - start];
    DecodeStopsAt(data, start, 0, n);
    assert data[start..n] == e;
    FoldEncode(v);
  }
}
