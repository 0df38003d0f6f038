/**
 * The byte layer under the network streams: the scalar field types the messages carry, their
 * little-endian byte images, and what reading a list of fields from a byte string yields when
 * every field read that finds too few bytes is skipped.
 */
module Wire {
  import opened Base

  /** One field as it is streamed: its C++ type decides its size (uint8_t and bool take one byte,
      a half float two, uint32_t, a float bit pattern and an enum four). */
  datatype Scalar = U8(b: byte) | U16(h: u16) | U32(w: u32) | Bool(flag: bool)

  function Size(v: Scalar): (n: nat)
    ensures 1 <= n <= 4
  {
    match v
    case U8(_) => 1
    case U16(_) => 2
    case U32(_) => 4
    case Bool(_) => 1
  }

  predicate SameKind(a: Scalar, b: Scalar) {
    (a.U8? && b.U8?) || (a.U16? && b.U16?) || (a.U32? && b.U32?) || (a.Bool? && b.Bool?)
  }

  predicate SameKinds(a: seq<Scalar>, b: seq<Scalar>) {
    |a| == |b| && forall i :: 0 <= i < |a| ==> SameKind(a[i], b[i])
  }

  /** The little-endian image of a uint32_t. */
  function Bytes32(w: u32): (r: seq<byte>)
    ensures |r| == 4
  {
    [w % 0x100, w / 0x100 % 0x100, w / 0x1_0000 % 0x100, w / 0x100_0000]
  }

  function Word32(bs: seq<byte>): u32
    requires |bs| == 4
  {
    bs[0] as int + 0x100 * bs[1] as int + 0x1_0000 * bs[2] as int + 0x100_0000 * bs[3] as int
  }

  function Bytes16(h: u16): (r: seq<byte>)
    ensures |r| == 2
  {
    [h % 0x100, h / 0x100]
  }

  function Word16(bs: seq<byte>): u16
    requires |bs| == 2
  {
    bs[0] as int + 0x100 * bs[1] as int
  }

  lemma Word32Bytes32(w: u32)
    ensures Word32(Bytes32(w)) == w
  {
    var b := Bytes32(w);
    assert w / 0x100 == b[1] + 0x100 * (w / 0x1_0000);
    assert w / 0x1_0000 == b[2] as int + 0x100 * b[3] as int;
  }

  lemma Bytes32Word32(bs: seq<byte>)
    requires |bs| == 4
    ensures Bytes32(Word32(bs)) == bs
  {
    var w := Word32(bs);
    assert w / 0x100 == bs[1] as int + 0x100 * bs[2] as int + 0x1_0000 * bs[3] as int;
    assert w / 0x1_0000 == bs[2] as int + 0x100 * bs[3] as int;
  }

  /** What `stream << value` appends. */
  function Encode(v: Scalar): (r: seq<byte>)
    ensures |r| == Size(v)
  {
    match v
    case U8(b) => [b]
    case U16(h) => Bytes16(h)
    case U32(w) => Bytes32(w)
    case Bool(f) => [if f then 1 else 0]
  }

  /** What `stream >> value` stores in a field of the kind of `like`: a nonzero byte reads as true. */
  function Decode(like: Scalar, bs: seq<byte>): (r: Scalar)
    requires |bs| == Size(like)
    ensures SameKind(r, like)
  {
    match like
    case U8(_) => U8(bs[0])
    case U16(_) => U16(Word16(bs))
    case U32(_) => U32(Word32(bs))
    case Bool(_) => Bool(bs[0] != 0)
  }

  /** Reading a field back from its image gives the field. */
  lemma DecodeEncode(like: Scalar, v: Scalar)
    requires SameKind(like, v)
    ensures Decode(like, Encode(v)) == v
  {
    match v
    case U32(w) => Word32Bytes32(w);
    case U16(h) =>
    case U8(_) =>
    case Bool(_) =>
  }

  /** The payload a writer emits for a field list: the images one after the other. */
  function EncodeAll(vs: seq<Scalar>): (r: seq<byte>)
  {
    if vs == [] then [] else Encode(vs[0]) + EncodeAll(vs[1..])
  }

  /** One reader `Serialize`: too few bytes leave the field and the cursor as they were. */
  function ReadOne(prior: Scalar, bs: seq<byte>): (r: (Scalar, nat))
    ensures SameKind(r.0, prior) && r.1 <= |bs|
    ensures r.1 == (if |bs| >= Size(prior) then Size(prior) else 0)
    ensures |bs| < Size(prior) ==> r.0 == prior
  {
    if |bs| >= Size(prior) then (Decode(prior, bs[..Size(prior)]), Size(prior)) else (prior, 0)
  }

  /** A reader `SerializeImpl` as a sequence of field reads whose results are not checked:
      the fields it ends with. */
  function ReadAll(prior: seq<Scalar>, bs: seq<byte>): seq<Scalar>
  {
    if prior == [] then []
    else
      var one := ReadOne(prior[0], bs);
      [one.0] + ReadAll(prior[1..], bs[one.1..])
  }

  /** How many bytes those reads consume. */
  function Consumed(prior: seq<Scalar>, bs: seq<byte>): nat
  {
    if prior == [] then 0
    else
      var one := ReadOne(prior[0], bs);
      one.1 + Consumed(prior[1..], bs[one.1..])
  }

  /** A field too wide for the bytes left keeps its value and reads nothing. */
  lemma ReadAllSkip(prior: seq<Scalar>, bs: seq<byte>)
    requires |prior| > 0 && |bs| < Size(prior[0])
    ensures ReadAll(prior, bs) == [prior[0]] + ReadAll(prior[1..], bs)
  {
    assert bs[0..] == bs;
  }

  /** Reading never fails: every field keeps its kind, and no more bytes than present are used. */
  lemma {:induction false} ReadAllShape(prior: seq<Scalar>, bs: seq<byte>)
    ensures SameKinds(ReadAll(prior, bs), prior)
    ensures Consumed(prior, bs) <= |bs|
    decreases |prior|
  {
    if prior != [] {
      var one := ReadOne(prior[0], bs);
      ReadAllShape(prior[1..], bs[one.1..]);
    }
  }

  /** Reading a field list from the image of a field of the first one's kind, followed by more. */
  lemma ReadAllFront(prior: seq<Scalar>, v: Scalar, more: seq<byte>)
    requires |prior| > 0 && SameKind(prior[0], v)
    ensures ReadAll(prior, Encode(v) + more) == [v] + ReadAll(prior[1..], more)
    ensures Consumed(prior, Encode(v) + more) == Size(v) + Consumed(prior[1..], more)
  {
    var bs := Encode(v) + more;
    assert bs[..Size(prior[0])] == Encode(v);
    assert bs[Size(prior[0])..] == more;
    DecodeEncode(prior[0], v);
  }

  /** Decoding an encoded field list, followed by anything, reproduces the fields and consumes
      exactly their images. */
  lemma {:induction false} ReadAllEncoded(prior: seq<Scalar>, vs: seq<Scalar>, rest: seq<byte>)
    requires SameKinds(prior, vs)
    ensures ReadAll(prior, EncodeAll(vs) + rest) == vs
    ensures Consumed(prior, EncodeAll(vs) + rest) == |EncodeAll(vs)|
    decreases |vs|
  {
    if vs != [] {
      assert EncodeAll(vs) + rest == Encode(vs[0]) + (EncodeAll(vs[1..]) + rest);
      ReadAllFront(prior, vs[0], EncodeAll(vs[1..]) + rest);
      ReadAllEncoded(prior[1..], vs[1..], rest);
    }
  }

  /** No bytes at all: every field keeps its prior value. */
  lemma {:induction false} ReadAllEmpty(prior: seq<Scalar>)
    ensures ReadAll(prior, []) == prior
    ensures Consumed(prior, []) == 0
    decreases |prior|
  {
    if prior != [] {
      ReadAllEmpty(prior[1..]);
    }
  }

  /** A payload cut short: the fields whose images arrived are decoded, and when the rest is shorter
      than any later field, every later field keeps its prior value. */
  lemma {:induction false} ReadAllTruncated(prior: seq<Scalar>, vs: seq<Scalar>, k: nat, tail: seq<byte>)
    requires SameKinds(prior, vs) && k <= |vs|
    requires forall j :: k <= j < |prior| ==> |tail| < Size(prior[j])
    ensures ReadAll(prior, EncodeAll(vs[..k]) + tail) == vs[..k] + prior[k..]
    decreases k
  {
    if k == 0 {
      ReadAllTail(prior, tail);
    } else {
      var front := vs[1..][..k - 1];
      assert vs[..k] == [vs[0]] + front;
      assert EncodeAll(vs[..k]) + tail == Encode(vs[0]) + (EncodeAll(front) + tail);
      ReadAllFront(prior, vs[0], EncodeAll(front) + tail);
      ReadAllTruncated(prior[1..], vs[1..], k - 1, tail);
      assert vs[..k] + prior[k..] == [vs[0]] + (front + prior[1..][k - 1..]);
    }
  }

  /** Fewer bytes than any field needs: nothing is read. */
  lemma {:induction false} ReadAllTail(prior: seq<Scalar>, tail: seq<byte>)
    requires forall j :: 0 <= j < |prior| ==> |tail| < Size(prior[j])
    ensures ReadAll(prior, tail) == prior
    decreases |prior|
  {
    if prior != [] {
      ReadAllTail(prior[1..], tail);
    }
  }

  // ---------------------------------------------------------------------------------------------
  // Transfers through a stream

  /** The bytes of a stream and its read cursor. */
  datatype StreamState = StreamState(bytes: seq<byte>, cursor: nat) {
    predicate Ok() { cursor <= |bytes| }
    function Unread(): seq<byte> requires Ok() { bytes[cursor..] }
  }

  /** One Serialize<T> on a reading or a writing stream: the value the field ends with, and the
      stream after it. */
  function Transfer(isReader: bool, st: StreamState, value: Scalar): (r: (Scalar, StreamState))
    requires st.Ok()
    ensures r.1.Ok() && SameKind(r.0, value)
  {
    if isReader then
      var one := ReadOne(value, st.Unread());
      (one.0, StreamState(st.bytes, st.cursor + one.1))
    else
      (value, StreamState(st.bytes + Encode(value), st.cursor))
  }

  /** A SerializeImpl that transfers a list of fields in order, ignoring each result. */
  function TransferAll(isReader: bool, st: StreamState, vs: seq<Scalar>): (r: (seq<Scalar>, StreamState))
    requires st.Ok()
    ensures r.1.Ok()
    decreases |vs|
  {
    if vs == [] then ([], st)
    else
      var one := Transfer(isReader, st, vs[0]);
      var rest := TransferAll(isReader, one.1, vs[1..]);
      ([one.0] + rest.0, rest.1)
  }

  /** A writer keeps the fields and appends their images; a reader keeps the bytes, and its fields
      and cursor are those of ReadAll and Consumed on the unread bytes. */
  lemma {:induction false} TransferAllFacts(isReader: bool, st: StreamState, vs: seq<Scalar>)
    requires st.Ok()
    ensures var r := TransferAll(isReader, st, vs);
            && (!isReader ==> r.0 == vs && r.1 == StreamState(st.bytes + EncodeAll(vs), st.cursor))
            && (isReader ==> r.0 == ReadAll(vs, st.Unread())
                             && r.1 == StreamState(st.bytes, st.cursor + Consumed(vs, st.Unread())))
    decreases |vs|
  {
    if vs != [] {
      var one := Transfer(isReader, st, vs[0]);
      TransferAllFacts(isReader, one.1, vs[1..]);
      if isReader {
        var n := ReadOne(vs[0], st.Unread()).1;
        assert one.1.Unread() == st.Unread()[n..];
      } else {
        assert st.bytes + Encode(vs[0]) + EncodeAll(vs[1..]) == st.bytes + EncodeAll(vs);
      }
    }
  }

  /** A list transfer is its first transfer followed by the transfer of the rest. */
  lemma TransferAllFront(isReader: bool, st: StreamState, vs: seq<Scalar>)
    requires st.Ok() && |vs| > 0
    ensures var one := Transfer(isReader, st, vs[0]);
            var rest := TransferAll(isReader, one.1, vs[1..]);
            TransferAll(isReader, st, vs) == ([one.0] + rest.0, rest.1)
  {
  }

  /** Transferring two lists one after the other is transferring their concatenation. */
  lemma {:induction false} TransferAllAppend(isReader: bool, st: StreamState, vs: seq<Scalar>, ws: seq<Scalar>)
    requires st.Ok()
    ensures var first := TransferAll(isReader, st, vs);
            var second := TransferAll(isReader, first.1, ws);
            TransferAll(isReader, st, vs + ws) == (first.0 + second.0, second.1)
    decreases |vs|
  {
    if vs == [] {
      assert vs + ws == ws;
      assert [] + TransferAll(isReader, st, ws).0 == TransferAll(isReader, st, ws).0;
    } else {
      assert (vs + ws)[0] == vs[0] && (vs + ws)[1..] == vs[1..] + ws;
      var one := Transfer(isReader, st, vs[0]);
      TransferAllAppend(isReader, one.1, vs[1..], ws);
      var first := TransferAll(isReader, one.1, vs[1..]);
      var second := TransferAll(isReader, first.1, ws);
      assert [one.0] + (first.0 + second.0) == ([one.0] + first.0) + second.0;
    }
  }

  /** Two transfers in turn are the transfer of the pair. */
  lemma TransferTwo(isReader: bool, vs: seq<Scalar>, rs: seq<Scalar>, st0: StreamState, st1: StreamState, st2: StreamState)
    requires st0.Ok() && st1.Ok() && |vs| == 2 && |rs| == 2
    requires (rs[0], st1) == Transfer(isReader, st0, vs[0])
    requires (rs[1], st2) == Transfer(isReader, st1, vs[1])
    ensures TransferAll(isReader, st0, vs) == (rs, st2)
  {
    var t := Transfer(isReader, st1, vs[1]);
    assert t.0 == rs[1] && t.1 == st2;
    assert vs[1..][0] == vs[1] && vs[1..][1..] == [];
    assert TransferAll(isReader, st2, vs[1..][1..]) == ([], st2);
    assert [rs[1]] + [] == [rs[1]];
    assert TransferAll(isReader, st1, vs[1..]) == ([rs[1]], st2);
    assert rs == [rs[0]] + [rs[1]];
  }

  lemma TransferFour(isReader: bool, vs: seq<Scalar>, rs: seq<Scalar>, st0: StreamState, st1: StreamState,
                     st2: StreamState, st3: StreamState, st4: StreamState)
    requires st0.Ok() && st1.Ok() && st2.Ok() && st3.Ok() && |vs| == 4 && |rs| == 4
    requires (rs[0], st1) == Transfer(isReader, st0, vs[0])
    requires (rs[1], st2) == Transfer(isReader, st1, vs[1])
    requires (rs[2], st3) == Transfer(isReader, st2, vs[2])
    requires (rs[3], st4) == Transfer(isReader, st3, vs[3])
    ensures TransferAll(isReader, st0, vs) == (rs, st4)
  {
    TransferTwo(isReader, vs[..2], rs[..2], st0, st1, st2);
    TransferTwo(isReader, vs[2..], rs[2..], st2, st3, st4);
    TransferAllAppend(isReader, st0, vs[..2], vs[2..]);
    assert vs[..2] + vs[2..] == vs;
    assert rs[..2] + rs[2..] == rs;
  }

  lemma TransferOne(isReader: bool, vs: seq<Scalar>, rs: seq<Scalar>, st0: StreamState, st1: StreamState)
    requires st0.Ok() && |vs| == 1 && |rs| == 1
    requires (rs[0], st1) == Transfer(isReader, st0, vs[0])
    ensures TransferAll(isReader, st0, vs) == (rs, st1)
  {
    assert vs[1..] == [];
    assert rs == [rs[0]] + [];
  }

  lemma TransferThree(isReader: bool, vs: seq<Scalar>, rs: seq<Scalar>, st0: StreamState, st1: StreamState,
                      st2: StreamState, st3: StreamState)
    requires st0.Ok() && st1.Ok() && st2.Ok() && |vs| == 3 && |rs| == 3
    requires (rs[0], st1) == Transfer(isReader, st0, vs[0])
    requires (rs[1], st2) == Transfer(isReader, st1, vs[1])
    requires (rs[2], st3) == Transfer(isReader, st2, vs[2])
    ensures TransferAll(isReader, st0, vs) == (rs, st3)
  {
    TransferTwo(isReader, vs[..2], rs[..2], st0, st1, st2);
    TransferOne(isReader, vs[2..], rs[2..], st2, st3);
    TransferAllAppend(isReader, st0, vs[..2], vs[2..]);
    assert vs[..2] + vs[2..] == vs;
    assert rs[..2] + rs[2..] == rs;
  }

  // ---------------------------------------------------------------------------------------------

  /** A byte buffer with a read cursor, as the streams use it: writing appends, reading consumes
      from the cursor, Reset empties it and Rewind moves the cursor back to the start. */
  class BitStream {
    var buffer: seq<byte>
    var cursor: nat

    predicate Valid()
      reads this
    {
      cursor <= |buffer|
    }

    function State(): StreamState
      reads this
    {
      StreamState(buffer, cursor)
    }

    /** The bytes not read yet. */
    function Unread(): seq<byte>
      reads this
      requires Valid()
    {
      buffer[cursor..]
    }

    constructor (contents: seq<byte>)
      ensures Valid() && buffer == contents && cursor == 0
    {
      buffer := contents;
      cursor := 0;
    }

    method Reset()
      modifies this
      ensures Valid() && buffer == [] && cursor == 0
    {
      buffer := [];
      cursor := 0;
    }

    method Rewind()
      modifies this`cursor
      ensures Valid() && cursor == 0
    {
      cursor := 0;
    }

    function RemainingBytes(): (n: nat)
      reads this
      requires Valid()
      ensures n == |Unread()|
    {
      |buffer| - cursor
    }

    /** `<<`: append the image of a value. */
    method Write(bs: seq<byte>)
      requires Valid()
      modifies this`buffer
      ensures Valid() && buffer == old(buffer) + bs
    {
      buffer := buffer + bs;
    }

    /** `>>`: take the next n bytes. The buffer's behaviour when fewer remain is not modelled. */
    method Read(n: nat) returns (bs: seq<byte>)
      requires Valid() && n <= RemainingBytes()
      modifies this`cursor
      ensures Valid() && bs == old(Unread())[..n] && cursor == old(cursor) + n
      ensures Unread() == old(Unread())[n..]
    {
      bs := buffer[cursor..cursor + n];
      cursor := cursor + n;
    }
  }
}
