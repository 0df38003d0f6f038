/**
 * NetStream.h: a reading or writing view of a byte stream, bound to a peer whose clock differential
 * compensates timestamps.
 */
module NetStreams {
  import opened Base
  import opened Wire

  /** The float-to-uint32 conversion `timestamp * 1000.0f`, defined for a time whose milliseconds
      fit a uint32_t (outside that range the conversion is undefined in C++). */
  function Millis(timestamp: real): (ms: u32)
    requires 0.0 <= timestamp * 1000.0 < U32Modulus as real
    ensures ms as real <= timestamp * 1000.0 < ms as real + 1.0
  {
    (timestamp * 1000.0).Floor
  }

  predicate MillisInRange(timestamp: real) {
    0.0 <= timestamp * 1000.0 < U32Modulus as real
  }

  /** What the writer stores: the milliseconds plus the peer's clock differential, in uint32_t. */
  function Stamped(ms: u32, clockDifferential: u32): u32 {
    Wrap32(ms + clockDifferential)
  }

  /** What the reader recovers: the stored value minus its own peer's clock differential. */
  function Unstamped(stored: u32, clockDifferential: u32): u32 {
    Wrap32(stored - clockDifferential)
  }

  /** The timestamp round trip: the reader gets the written milliseconds shifted by the difference
      of the two differentials (modulo 2^32), so exactly them when the differentials agree. */
  lemma UnstampedStamped(ms: u32, writer: u32, reader: u32)
    ensures Unstamped(Stamped(ms, writer), reader) == Wrap32(ms + writer - reader)
    ensures writer == reader ==> Unstamped(Stamped(ms, writer), reader) == ms
  {
    var s := Stamped(ms, writer);
    var k := (ms + writer - s) / U32Modulus;
    assert ms + writer - s == k * U32Modulus;
    assert s - reader == (ms + writer - reader) - k * U32Modulus;
    WrapShift(ms + writer - reader, k);
  }

  lemma WrapShift(x: int, k: int)
    ensures Wrap32(x - k * U32Modulus) == Wrap32(x)
  {
    var y := x - k * U32Modulus;
    assert y % U32Modulus == (x + (-k) * U32Modulus) % U32Modulus;
  }

  /** SerializeTimestamp on a reading or a writing stream: the time the field ends with, and the
      stream after it. */
  function TimestampTransfer(isReader: bool, st: StreamState, clockDifferential: u32, timestamp: real): (r: (real, StreamState))
    requires st.Ok() && (!isReader ==> MillisInRange(timestamp))
    ensures r.1.Ok()
  {
    if isReader then
      if |st.Unread()| >= 4 then
        (Unstamped(Word32(st.Unread()[..4]), clockDifferential) as real * 0.001, StreamState(st.bytes, st.cursor + 4))
      else
        (timestamp, st)
    else
      (timestamp, StreamState(st.bytes + Bytes32(Stamped(Millis(timestamp), clockDifferential)), st.cursor))
  }

  /** A written timestamp read back: the milliseconds come back shifted by the difference of the
      clock differentials, and exactly when both sides use the same one. */
  lemma TimestampRoundTrip(bytes: seq<byte>, cursor: nat, writer: u32, reader: u32, timestamp: real, prior: real)
    requires cursor <= |bytes| && MillisInRange(timestamp)
    ensures var w := TimestampTransfer(false, StreamState(bytes, cursor), writer, timestamp).1;
            var rd := TimestampTransfer(true, StreamState(w.bytes, |bytes|), reader, prior);
            && rd.0 == Wrap32(Millis(timestamp) + writer - reader) as real * 0.001
            && rd.1.cursor == |w.bytes|
            && (writer == reader ==> rd.0 == Millis(timestamp) as real * 0.001)
  {
    var stored := Stamped(Millis(timestamp), writer);
    var w := TimestampTransfer(false, StreamState(bytes, cursor), writer, timestamp).1;
    assert StreamState(w.bytes, |bytes|).Unread() == Bytes32(stored);
    Word32Bytes32(stored);
    UnstampedStamped(Millis(timestamp), writer, reader);
  }

  /** How an array travels. SerializeArray is not part of this model: its format is a parameter, a
      decoder reporting what it read and how many bytes that took. */
  datatype ArrayCodec<!T> = ArrayCodec(encode: seq<T> -> seq<byte>, decode: seq<byte> -> Option<(seq<T>, nat)>)

  /** SerializeArray on a reading or a writing stream. A reader whose decoder fails keeps the array. */
  function ArrayTransfer<T>(isReader: bool, st: StreamState, codec: ArrayCodec<T>, value: seq<T>): (r: (seq<T>, StreamState))
    requires st.Ok()
    ensures r.1.Ok()
  {
    if isReader then
      var d := codec.decode(st.Unread());
      if d.Some? && d.value.1 <= |st.Unread()| then (d.value.0, StreamState(st.bytes, st.cursor + d.value.1))
      else (value, st)
    else
      (value, StreamState(st.bytes + codec.encode(value), st.cursor))
  }

  /** An array written by the codec is read back, when the codec decodes its own output. */
  lemma ArrayRoundTrip<T>(codec: ArrayCodec<T>, value: seq<T>, prior: seq<T>, bytes: seq<byte>, cursor: nat)
    requires cursor <= |bytes|
    requires codec.decode(codec.encode(value)) == Some((value, |codec.encode(value)|))
    ensures var w := ArrayTransfer(false, StreamState(bytes, cursor), codec, value).1;
            var rd := ArrayTransfer(true, StreamState(w.bytes, |bytes|), codec, prior);
            rd.0 == value && rd.1.cursor == |w.bytes|
  {
    var w := ArrayTransfer(false, StreamState(bytes, cursor), codec, value).1;
    assert StreamState(w.bytes, |bytes|).Unread() == codec.encode(value);
  }

  class NetStream {
    const isReader: bool
    const stream: BitStream
    /** enet_peer_clock_differential of the stream's peer. */
    const clockDifferential: u32

    /** A reader rewinds the stream, a writer empties it. */
    constructor (isReader: bool, stream: BitStream, clockDifferential: u32)
      modifies stream
      ensures this.isReader == isReader && this.stream == stream && this.clockDifferential == clockDifferential
      ensures stream.Valid() && stream.cursor == 0
      ensures isReader ==> stream.buffer == old(stream.buffer)
      ensures !isReader ==> stream.buffer == []
    {
      this.isReader := isReader;
      this.stream := stream;
      this.clockDifferential := clockDifferential;
      new;
      if isReader {
        stream.Rewind();
      } else {
        stream.Reset();
      }
    }

    /** Serialize<T>: a writer appends the value; a reader takes the value from the stream when
        enough bytes remain, and otherwise fails and leaves both the value and the cursor alone. */
    method Serialize(value: Scalar) returns (ok: bool, r: Scalar)
      requires stream.Valid()
      modifies stream
      ensures stream.Valid()
      ensures (r, stream.State()) == Transfer(isReader, old(stream.State()), value)
      ensures ok <==> !isReader || Size(value) <= old(stream.RemainingBytes())
    {
      if isReader {
        if stream.RemainingBytes() >= Size(value) {
          var bs := stream.Read(Size(value));
          r := Decode(value, bs);
          ok := true;
        } else {
          ok, r := false, value;
        }
      } else {
        stream.Write(Encode(value));
        ok, r := true, value;
      }
    }

    /** SerializeTimestamp: a writer stores the whole milliseconds shifted by the clock differential;
        a reader, given four bytes, shifts back and converts to seconds, else fails without reading.
        The writer's result is not specified: that branch returns no value. */
    method SerializeTimestamp(timestamp: real) returns (ok: bool, r: real)
      requires stream.Valid()
      requires !isReader ==> MillisInRange(timestamp)
      modifies stream
      ensures stream.Valid()
      ensures (r, stream.State()) == TimestampTransfer(isReader, old(stream.State()), clockDifferential, timestamp)
      ensures isReader ==> (ok <==> 4 <= old(stream.RemainingBytes()))
    {
      r := timestamp;
      if isReader {
        if stream.RemainingBytes() >= 4 {
          var bs := stream.Read(4);
          var t := Unstamped(Word32(bs), clockDifferential);
          r := t as real * 0.001;
          ok := true;
        } else {
          ok := false;
        }
      } else {
        var t := Stamped(Millis(timestamp), clockDifferential);
        stream.Write(Bytes32(t));
        ok :| true;
      }
    }
  
    method SerializeArray<T>(codec: ArrayCodec<T>, value: seq<T>) returns (r: seq<T>)
      requires stream.Valid()
      modifies stream
      ensures stream.Valid()
      ensures (r, stream.State()) == ArrayTransfer(isReader, old(stream.State()), codec, value)
    {
      r := value;
      if isReader {
        var d := codec.decode(stream.Unread());
        if d.Some? && d.value.1 <= stream.RemainingBytes() {
          var bs := stream.Read(d.value.1);
          r := d.value.0;
        }
      } else {
        stream.Write(codec.encode(value));
      }
    }
  }
}
