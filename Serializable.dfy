/**
 * Serializable.h: every message is written as its class's four-character type tag followed by the
 * payload its SerializeImpl emits, and read back by checking the tag and decoding the payload.
 */
module Serialization {
  import opened Base
  import opened Wire
  import opened NetStreams

  /** The value of a four-character literal such as 'PLST': the first character is the most
      significant byte, so on the little-endian stream the characters go out last one first. */
  function FourCC(s: string): (r: u32)
    requires |s| == 4 && forall i :: 0 <= i < 4 ==> s[i] as int < 0x100
    ensures Bytes32(r) == [s[3] as int, s[2] as int, s[1] as int, s[0] as int]
  {
    var a, b, c, d := s[0] as int, s[1] as int, s[2] as int, s[3] as int;
    assert 0 <= a * 0x100_0000 < 0x1_0000_0000;
    Bytes32Word32([d, c, b, a]);
    a * 0x100_0000 + b * 0x1_0000 + c * 0x100 + d
  }

  /** The tags the classes are registered with. EnemyState and NetEntityState share one. */
  const SerializableTag: u32 := FourCC("SERI")
  const CreateRoomTag: u32 := FourCC("CRRM")
  const JoinRoomTag: u32 := FourCC("JORM")
  const PlayerInputsTag: u32 := FourCC("PLIN")
  const PlayerStateTag: u32 := FourCC("PLST")
  const EnemyStateTag: u32 := FourCC("ENST")
  const NetEntityStateTag: u32 := FourCC("ENST")

  /** What Serialize leaves in the stream: the tag as a uint32_t, then the payload. */
  function Tagged(tag: u32, payload: seq<byte>): seq<byte> {
    Bytes32(tag) + payload
  }

  /** Whether a stream starts with the given tag, as Deserialize's assertion demands. */
  predicate HasTag(bs: seq<byte>, tag: u32) {
    |bs| >= 4 && Word32(bs[..4]) == tag
  }

  /** A tagged encoding carries its tag and, after it, exactly the payload. */
  lemma TaggedParts(tag: u32, payload: seq<byte>)
    ensures HasTag(Tagged(tag, payload), tag)
    ensures Tagged(tag, payload)[4..] == payload
  {
    assert Tagged(tag, payload)[..4] == Bytes32(tag);
    Word32Bytes32(tag);
  }

  /** Deserialize after Serialize: the fields written are the fields read, whatever the reading
      object held before. */
  lemma TaggedRoundTrip(tag: u32, prior: seq<Scalar>, vs: seq<Scalar>)
    requires SameKinds(prior, vs)
    ensures HasTag(Tagged(tag, EncodeAll(vs)), tag)
    ensures ReadAll(prior, Tagged(tag, EncodeAll(vs))[4..]) == vs
  {
    TaggedParts(tag, EncodeAll(vs));
    ReadAllEncoded(prior, vs, []);
    assert EncodeAll(vs) + [] == EncodeAll(vs);
  }

  /** An encoded NetEntityState passes the tag check of EnemyState's Deserialize, which then reads
      the entity's id, step and position bytes as an enemy state. */
  lemma EnemyStateAcceptsNetEntityState(payload: seq<byte>)
    ensures HasTag(Tagged(NetEntityStateTag, payload), EnemyStateTag)
  {
    TaggedParts(NetEntityStateTag, payload);
  }

  /** Apart from that pair, the tags are pairwise different. */
  lemma TagsDistinct()
    ensures |{SerializableTag, CreateRoomTag, JoinRoomTag, PlayerInputsTag, PlayerStateTag, EnemyStateTag}| == 6
  {
  }

  /** The base class: an empty payload. */
  class Serializable {
    constructor ()
    {
    }

    method SerializeImpl(s: NetStream)
      ensures unchanged(s.stream)
    {
    }

    /** Reset the stream and write the tag alone. */
    method Serialize(stream: BitStream)
      modifies stream
      ensures stream.Valid() && stream.buffer == Tagged(SerializableTag, [])
    {
      var w := new NetStream(false, stream, 0);
      stream.Write(Bytes32(SerializableTag));
      SerializeImpl(w);
    }

    /** Rewind the stream and read the tag, which must be the class's own. */
    method Deserialize(stream: BitStream)
      requires stream.Valid() && HasTag(stream.buffer, SerializableTag)
      modifies stream
      ensures stream.Valid() && stream.buffer == old(stream.buffer) && stream.cursor == 4
    {
      var r := new NetStream(true, stream, 0);
      var fcc := stream.Read(4);
      assert Word32(fcc) == SerializableTag;
      SerializeImpl(r);
    }
  }
}
