/**
 * The messages. Each SerializeImpl is a fixed sequence of field transfers through a NetStream whose
 * per-field results are ignored, so its effect is Wire.TransferAll over the message's field list:
 * a writer appends the fields' images in order, and a reader ends with what Wire.ReadAll makes of
 * the bytes. The uninitialised fields of the C++ constructors are taken as constructor arguments.
 */
module Messages {
  import opened Base
  import opened Wire
  import opened NetStreams
  import opened Serialization
  import EntityStates
  import Players

  // ---------------------------------------------------------------------------------------------
  // PlayerInputs

  function PlayerInputsFields(step: u32, x: u32, y: u32, attack: bool): seq<Scalar> {
    [U32(step), U32(x), U32(y), Bool(attack)]
  }

  /** A client's input at a step: the stick as two float bit patterns and the attack button. */
  class PlayerInputs {
    var step: u32
    var x: u32
    var y: u32
    var attack: bool

    function Fields(): seq<Scalar>
      reads this
    {
      PlayerInputsFields(step, x, y, attack)
    }

    constructor (step: u32, x: u32, y: u32, attack: bool)
      ensures Fields() == PlayerInputsFields(step, x, y, attack)
    {
      this.step, this.x, this.y, this.attack := step, x, y, attack;
    }

    method SerializeImpl(s: NetStream)
      requires s.stream.Valid()
      modifies this, s.stream
      ensures s.stream.Valid()
      ensures (Fields(), s.stream.State()) == TransferAll(s.isReader, old(s.stream.State()), old(Fields()))
    {
      ghost var st0 := s.stream.State();
      var ok, a := s.Serialize(U32(step));
      ghost var st1 := s.stream.State();
      var b, c, d;
      ok, b := s.Serialize(U32(x));
      ghost var st2 := s.stream.State();
      ok, c := s.Serialize(U32(y));
      ghost var st3 := s.stream.State();
      ok, d := s.Serialize(Bool(attack));
      TransferFour(s.isReader, Fields(), [a, b, c, d], st0, st1, st2, st3, s.stream.State());
      step, x, y, attack := a.w, b.w, c.w, d.flag;
    }

    method Serialize(stream: BitStream)
      modifies this, stream
      ensures stream.Valid() && Fields() == old(Fields())
      ensures stream.buffer == Tagged(PlayerInputsTag, EncodeAll(Fields()))
    {
      var w := new NetStream(false, stream, 0);
      stream.Write(Bytes32(PlayerInputsTag));
      TransferAllFacts(false, stream.State(), Fields());
      SerializeImpl(w);
    }

    method Deserialize(stream: BitStream)
      requires stream.Valid() && HasTag(stream.buffer, PlayerInputsTag)
      modifies this, stream
      ensures stream.buffer == old(stream.buffer)
      ensures Fields() == ReadAll(old(Fields()), old(stream.buffer)[4..])
    {
      var r := new NetStream(true, stream, 0);
      var fcc := stream.Read(4);
      assert Word32(fcc) == PlayerInputsTag;
      TransferAllFacts(true, stream.State(), Fields());
      SerializeImpl(r);
    }
  }

  /** Decoding an encoded PlayerInputs gives back step, x, y and attack. */
  lemma PlayerInputsRoundTrip(step: u32, x: u32, y: u32, attack: bool, prior: seq<Scalar>)
    requires SameKinds(prior, PlayerInputsFields(0, 0, 0, false))
    ensures var bs := Tagged(PlayerInputsTag, EncodeAll(PlayerInputsFields(step, x, y, attack)));
            HasTag(bs, PlayerInputsTag) && ReadAll(prior, bs[4..]) == PlayerInputsFields(step, x, y, attack)
  {
    TaggedRoundTrip(PlayerInputsTag, prior, PlayerInputsFields(step, x, y, attack));
  }

  /** A payload cut after the step with one to three bytes left: the reads of x and y fail and keep
      their values, but the one-byte attack flag is still read, from the first leftover byte. */
  lemma PlayerInputsCutShort(step: u32, s0: u32, x0: u32, y0: u32, a0: bool, tail: seq<byte>)
    requires 1 <= |tail| < 4
    ensures ReadAll(PlayerInputsFields(s0, x0, y0, a0), Bytes32(step) + tail)
            == PlayerInputsFields(step, x0, y0, tail[0] != 0)
  {
    var prior := PlayerInputsFields(s0, x0, y0, a0);
    ReadAllFront(prior, U32(step), tail);
    assert prior[1..] == [U32(x0), U32(y0), Bool(a0)];
    PlayerInputsStrayByte(x0, y0, a0, tail);
  }

  lemma PlayerInputsStrayByte(x0: u32, y0: u32, a0: bool, tail: seq<byte>)
    requires 1 <= |tail| < 4
    ensures ReadAll([U32(x0), U32(y0), Bool(a0)], tail) == [U32(x0), U32(y0), Bool(tail[0] != 0)]
  {
    var p1, p2, p3 := [U32(x0), U32(y0), Bool(a0)], [U32(y0), Bool(a0)], [Bool(a0)];
    assert p1[1..] == p2 && p2[1..] == p3 && p3[1..] == [];
    assert tail[..1] == [tail[0]];
    ReadAllSkip(p1, tail);
    ReadAllSkip(p2, tail);
    assert ReadAll(p3, tail) == [Bool(tail[0] != 0)] + ReadAll([], tail[1..]);
  }

  // ---------------------------------------------------------------------------------------------
  // PlayerState and EnemyState

  function PlayerStateFields(id: byte, step: u32, x: u32, y: u32): seq<Scalar> {
    [U8(id), U32(step), U32(x), U32(y)]
  }

  /** The authoritative position of a player at a step; x and y are float bit patterns. */
  class PlayerState {
    var id: byte
    var step: u32
    var x: u32
    var y: u32

    function Fields(): seq<Scalar>
      reads this
    {
      PlayerStateFields(id, step, x, y)
    }

    constructor (id: byte, step: u32, x: u32, y: u32)
      ensures Fields() == PlayerStateFields(id, step, x, y)
    {
      this.id, this.step, this.x, this.y := id, step, x, y;
    }

    method SerializeImpl(s: NetStream)
      requires s.stream.Valid()
      modifies this, s.stream
      ensures s.stream.Valid()
      ensures (Fields(), s.stream.State()) == TransferAll(s.isReader, old(s.stream.State()), old(Fields()))
    {
      ghost var st0 := s.stream.State();
      var ok, a := s.Serialize(U8(id));
      ghost var st1 := s.stream.State();
      var b, c, d;
      ok, b := s.Serialize(U32(step));
      ghost var st2 := s.stream.State();
      ok, c := s.Serialize(U32(x));
      ghost var st3 := s.stream.State();
      ok, d := s.Serialize(U32(y));
      TransferFour(s.isReader, Fields(), [a, b, c, d], st0, st1, st2, st3, s.stream.State());
      id, step, x, y := a.b, b.w, c.w, d.w;
    }

    method Serialize(stream: BitStream)
      modifies this, stream
      ensures stream.Valid() && Fields() == old(Fields())
      ensures stream.buffer == Tagged(PlayerStateTag, EncodeAll(Fields()))
    {
      var w := new NetStream(false, stream, 0);
      stream.Write(Bytes32(PlayerStateTag));
      TransferAllFacts(false, stream.State(), Fields());
      SerializeImpl(w);
    }

    method Deserialize(stream: BitStream)
      requires stream.Valid() && HasTag(stream.buffer, PlayerStateTag)
      modifies this, stream
      ensures stream.buffer == old(stream.buffer)
      ensures Fields() == ReadAll(old(Fields()), old(stream.buffer)[4..])
    {
      var r := new NetStream(true, stream, 0);
      var fcc := stream.Read(4);
      assert Word32(fcc) == PlayerStateTag;
      TransferAllFacts(true, stream.State(), Fields());
      SerializeImpl(r);
    }
  }

  /** Decoding an encoded PlayerState gives back id, step, x and y. */
  lemma PlayerStateRoundTrip(id: byte, step: u32, x: u32, y: u32, prior: seq<Scalar>)
    requires SameKinds(prior, PlayerStateFields(0, 0, 0, 0))
    ensures var bs := Tagged(PlayerStateTag, EncodeAll(PlayerStateFields(id, step, x, y)));
            HasTag(bs, PlayerStateTag) && ReadAll(prior, bs[4..]) == PlayerStateFields(id, step, x, y)
  {
    TaggedRoundTrip(PlayerStateTag, prior, PlayerStateFields(id, step, x, y));
  }

  /** A payload cut inside the step (the id and then fewer than four bytes): the id is read, and
      step, x and y keep the values they had. */
  lemma PlayerStateCutShort(prior: seq<Scalar>, id: byte, tail: seq<byte>)
    requires SameKinds(prior, PlayerStateFields(0, 0, 0, 0)) && |tail| < 4
    ensures ReadAll(prior, [id] + tail) == [U8(id)] + prior[1..]
  {
    assert Encode(U8(id)) == [id];
    ReadAllFront(prior, U8(id), tail);
    var rest := prior[1..];
    assert rest[0].U32? && rest[1].U32? && rest[2].U32?;
    ReadAllTail(rest, tail);
  }

  function EnemyStateFields(id: byte, step: u32, x: u32, y: u32): seq<Scalar> {
    [U8(id), U32(step), U32(x), U32(y)]
  }

  /** The position of an enemy at a step, with the layout of PlayerState under its own tag. */
  class EnemyState {
    var id: byte
    var step: u32
    var x: u32
    var y: u32

    function Fields(): seq<Scalar>
      reads this
    {
      EnemyStateFields(id, step, x, y)
    }

    constructor (id: byte, step: u32, x: u32, y: u32)
      ensures Fields() == EnemyStateFields(id, step, x, y)
    {
      this.id, this.step, this.x, this.y := id, step, x, y;
    }

    method SerializeImpl(s: NetStream)
      requires s.stream.Valid()
      modifies this, s.stream
      ensures s.stream.Valid()
      ensures (Fields(), s.stream.State()) == TransferAll(s.isReader, old(s.stream.State()), old(Fields()))
    {
      ghost var st0 := s.stream.State();
      var ok, a := s.Serialize(U8(id));
      ghost var st1 := s.stream.State();
      var b, c, d;
      ok, b := s.Serialize(U32(step));
      ghost var st2 := s.stream.State();
      ok, c := s.Serialize(U32(x));
      ghost var st3 := s.stream.State();
      ok, d := s.Serialize(U32(y));
      TransferFour(s.isReader, Fields(), [a, b, c, d], st0, st1, st2, st3, s.stream.State());
      id, step, x, y := a.b, b.w, c.w, d.w;
    }

    method Serialize(stream: BitStream)
      modifies this, stream
      ensures stream.Valid() && Fields() == old(Fields())
      ensures stream.buffer == Tagged(EnemyStateTag, EncodeAll(Fields()))
    {
      var w := new NetStream(false, stream, 0);
      stream.Write(Bytes32(EnemyStateTag));
      TransferAllFacts(false, stream.State(), Fields());
      SerializeImpl(w);
    }

    method Deserialize(stream: BitStream)
      requires stream.Valid() && HasTag(stream.buffer, EnemyStateTag)
      modifies this, stream
      ensures stream.buffer == old(stream.buffer)
      ensures Fields() == ReadAll(old(Fields()), old(stream.buffer)[4..])
    {
      var r := new NetStream(true, stream, 0);
      var fcc := stream.Read(4);
      assert Word32(fcc) == EnemyStateTag;
      TransferAllFacts(true, stream.State(), Fields());
      SerializeImpl(r);
    }
  }

  /** Decoding an encoded EnemyState gives back id, step, x and y. */
  lemma EnemyStateRoundTrip(id: byte, step: u32, x: u32, y: u32, prior: seq<Scalar>)
    requires SameKinds(prior, EnemyStateFields(0, 0, 0, 0))
    ensures var bs := Tagged(EnemyStateTag, EncodeAll(EnemyStateFields(id, step, x, y)));
            HasTag(bs, EnemyStateTag) && ReadAll(prior, bs[4..]) == EnemyStateFields(id, step, x, y)
  {
    TaggedRoundTrip(EnemyStateTag, prior, EnemyStateFields(id, step, x, y));
  }

  /** What EnemyState's Deserialize makes of a NetEntityState that shares its tag: the entity's id,
      step and position, with the rest of the entity's bytes left unread. */
  lemma EnemyStateReadsNetEntityState(n: EntityStates.NetEntityState, prior: seq<Scalar>)
    requires SameKinds(prior, EnemyStateFields(0, 0, 0, 0))
    ensures var bs := Tagged(NetEntityStateTag, EncodeAll(NetEntityStateFields(n)));
            && HasTag(bs, EnemyStateTag)
            && ReadAll(prior, bs[4..]) == EnemyStateFields(n.id, n.step, n.x, n.y)
            && Consumed(prior, bs[4..]) == 13 < |bs[4..]|
  {
    var fs := NetEntityStateFields(n);
    var head := EnemyStateFields(n.id, n.step, n.x, n.y);
    EnemyStateAcceptsNetEntityState(EncodeAll(fs));
    TaggedParts(NetEntityStateTag, EncodeAll(fs));
    assert fs == head + fs[4..];
    EncodeAllAppend(head, fs[4..]);
    ReadAllEncoded(prior, head, EncodeAll(fs[4..]));
    assert |EncodeAll(head)| == 13 by { EncodeAllHead(head); }
    assert |EncodeAll(fs[4..])| > 0 by { assert EncodeAll(fs[4..]) == Encode(fs[4]) + EncodeAll(fs[5..]); }
  }

  lemma EncodeAllHead(head: seq<Scalar>)
    requires |head| == 4 && head[0].U8? && head[1].U32? && head[2].U32? && head[3].U32?
    ensures |EncodeAll(head)| == 13
  {
    assert EncodeAll(head) == Encode(head[0]) + EncodeAll(head[1..]);
    assert EncodeAll(head[1..]) == Encode(head[1]) + EncodeAll(head[2..]);
    assert EncodeAll(head[2..]) == Encode(head[2]) + EncodeAll(head[3..]);
    assert EncodeAll(head[3..]) == Encode(head[3]) + EncodeAll(head[4..]);
  }

  /** Encoding a concatenation is concatenating the encodings. */
  lemma {:induction false} EncodeAllAppend(vs: seq<Scalar>, ws: seq<Scalar>)
    ensures EncodeAll(vs + ws) == EncodeAll(vs) + EncodeAll(ws)
    decreases |vs|
  {
    if vs == [] {
      assert vs + ws == ws;
    } else {
      assert (vs + ws)[0] == vs[0] && (vs + ws)[1..] == vs[1..] + ws;
      EncodeAllAppend(vs[1..], ws);
    }
  }

  // ---------------------------------------------------------------------------------------------
  // CreateRoom

  /** The room id of a request that has none yet. */
  const CreateRoomUnknownId: u32 := 0xffff_ffff

  function CreateRoomFields(roomId: u32, playersCount: byte): seq<Scalar> {
    [U32(roomId), U8(playersCount)]
  }

  class CreateRoom {
    var roomId: u32
    var playersCount: byte

    function Fields(): seq<Scalar>
      reads this
    {
      CreateRoomFields(roomId, playersCount)
    }

    constructor (roomId: u32, playersCount: byte)
      ensures Fields() == CreateRoomFields(roomId, playersCount)
    {
      this.roomId, this.playersCount := roomId, playersCount;
    }

    method SerializeImpl(s: NetStream)
      requires s.stream.Valid()
      modifies this, s.stream
      ensures s.stream.Valid()
      ensures (Fields(), s.stream.State()) == TransferAll(s.isReader, old(s.stream.State()), old(Fields()))
    {
      ghost var st0 := s.stream.State();
      var ok, a := s.Serialize(U32(roomId));
      ghost var st1 := s.stream.State();
      var b;
      ok, b := s.Serialize(U8(playersCount));
      TransferTwo(s.isReader, Fields(), [a, b], st0, st1, s.stream.State());
      roomId, playersCount := a.w, b.b;
    }

    method Serialize(stream: BitStream)
      modifies this, stream
      ensures stream.Valid() && Fields() == old(Fields())
      ensures stream.buffer == Tagged(CreateRoomTag, EncodeAll(Fields()))
    {
      var w := new NetStream(false, stream, 0);
      stream.Write(Bytes32(CreateRoomTag));
      TransferAllFacts(false, stream.State(), Fields());
      SerializeImpl(w);
    }

    method Deserialize(stream: BitStream)
      requires stream.Valid() && HasTag(stream.buffer, CreateRoomTag)
      modifies this, stream
      ensures stream.buffer == old(stream.buffer)
      ensures Fields() == ReadAll(old(Fields()), old(stream.buffer)[4..])
    {
      var r := new NetStream(true, stream, 0);
      var fcc := stream.Read(4);
      assert Word32(fcc) == CreateRoomTag;
      TransferAllFacts(true, stream.State(), Fields());
      SerializeImpl(r);
    }
  }

  /** Decoding an encoded CreateRoom gives back the room id and the player count. */
  lemma CreateRoomRoundTrip(roomId: u32, playersCount: byte, prior: seq<Scalar>)
    requires SameKinds(prior, CreateRoomFields(0, 0))
    ensures var bs := Tagged(CreateRoomTag, EncodeAll(CreateRoomFields(roomId, playersCount)));
            HasTag(bs, CreateRoomTag) && ReadAll(prior, bs[4..]) == CreateRoomFields(roomId, playersCount)
  {
    TaggedRoundTrip(CreateRoomTag, prior, CreateRoomFields(roomId, playersCount));
  }

  /** A payload of one to three bytes: the room id read fails and keeps its value, and the
      one-byte count is then taken from the first byte. */
  lemma CreateRoomCutShort(r0: u32, c0: byte, bs: seq<byte>)
    requires 1 <= |bs| < 4
    ensures ReadAll(CreateRoomFields(r0, c0), bs) == CreateRoomFields(r0, bs[0])
  {
    var prior := CreateRoomFields(r0, c0);
    assert ReadAll(prior, bs) == [U32(r0)] + ReadAll(prior[1..], bs);
    assert bs[..1] == [bs[0]];
    assert ReadAll(prior[1..], bs) == [U8(bs[0])] + ReadAll(prior[2..], bs[1..]);
  }

  // ---------------------------------------------------------------------------------------------
  // NetEntityState (EntityState.h)

  /** The payload order of a NetEntityState; dx and dy travel as half-float bit patterns. */
  function NetEntityStateFields(n: EntityStates.NetEntityState): seq<Scalar> {
    NetEntityHead(n.id, n.step, n.x, n.y) + NetEntityTail(n.dx, n.dy, n.actionState, n.actionStep)
  }

  /** The id, the step and the position. */
  function NetEntityHead(id: byte, step: u32, x: u32, y: u32): seq<Scalar> {
    [U8(id), U32(step), U32(x), U32(y)]
  }

  /** The velocity and the action. */
  function NetEntityTail(dx: u16, dy: u16, actionState: byte, actionStep: u32): seq<Scalar> {
    [U16(dx), U16(dy), U8(actionState), U32(actionStep)]
  }

  /** The fields of the message object; dx and dy are held as half-float bit patterns. */
  class NetEntityState {
    var id: byte
    var step: u32
    var x: u32
    var y: u32
    var dx: u16
    var dy: u16
    var actionState: byte
    var actionStep: u32

    function Value(): EntityStates.NetEntityState
      reads this
    {
      EntityStates.NetEntityState(id, step, x, y, dx, dy, actionState, actionStep)
    }

    function Fields(): seq<Scalar>
      reads this
    {
      NetEntityStateFields(Value())
    }

    constructor (n: EntityStates.NetEntityState)
      ensures Value() == n
    {
      id, step, x, y := n.id, n.step, n.x, n.y;
      dx, dy, actionState, actionStep := n.dx, n.dy, n.actionState, n.actionStep;
    }

    method SerializeHead(s: NetStream)
      requires s.stream.Valid()
      modifies this`id, this`step, this`x, this`y, s.stream
      ensures s.stream.Valid()
      ensures (NetEntityHead(id, step, x, y), s.stream.State())
              == TransferAll(s.isReader, old(s.stream.State()), NetEntityHead(old(id), old(step), old(x), old(y)))
    {
      ghost var st0 := s.stream.State();
      var ok, a := s.Serialize(U8(id));
      ghost var st1 := s.stream.State();
      var b, c, d;
      ok, b := s.Serialize(U32(step));
      ghost var st2 := s.stream.State();
      ok, c := s.Serialize(U32(x));
      ghost var st3 := s.stream.State();
      ok, d := s.Serialize(U32(y));
      TransferFour(s.isReader, NetEntityHead(id, step, x, y), [a, b, c, d], st0, st1, st2, st3, s.stream.State());
      id, step, x, y := a.b, b.w, c.w, d.w;
    }

    method SerializeTail(s: NetStream)
      requires s.stream.Valid()
      modifies this`dx, this`dy, this`actionState, this`actionStep, s.stream
      ensures s.stream.Valid()
      ensures (NetEntityTail(dx, dy, actionState, actionStep), s.stream.State())
              == TransferAll(s.isReader, old(s.stream.State()),
                             NetEntityTail(old(dx), old(dy), old(actionState), old(actionStep)))
    {
      ghost var st0 := s.stream.State();
      var ok, a := s.Serialize(U16(dx));
      ghost var st1 := s.stream.State();
      var b, c, d;
      ok, b := s.Serialize(U16(dy));
      ghost var st2 := s.stream.State();
      ok, c := s.Serialize(U8(actionState));
      ghost var st3 := s.stream.State();
      ok, d := s.Serialize(U32(actionStep));
      TransferFour(s.isReader, NetEntityTail(dx, dy, actionState, actionStep), [a, b, c, d],
                   st0, st1, st2, st3, s.stream.State());
      dx, dy, actionState, actionStep := a.h, b.h, c.b, d.w;
    }

    /** The fields in the order of EntityState.h: head, then tail. */
    method SerializeImpl(s: NetStream)
      requires s.stream.Valid()
      modifies this, s.stream
      ensures s.stream.Valid()
      ensures (Fields(), s.stream.State()) == TransferAll(s.isReader, old(s.stream.State()), old(Fields()))
    {
      ghost var st0 := s.stream.State();
      ghost var head, tail := NetEntityHead(id, step, x, y), NetEntityTail(dx, dy, actionState, actionStep);
      SerializeHead(s);
      SerializeTail(s);
      TransferAllAppend(s.isReader, st0, head, tail);
    }

    method Serialize(stream: BitStream)
      modifies this, stream
      ensures stream.Valid() && Value() == old(Value())
      ensures stream.buffer == Tagged(NetEntityStateTag, EncodeAll(Fields()))
    {
      var w := new NetStream(false, stream, 0);
      stream.Write(Bytes32(NetEntityStateTag));
      TransferAllFacts(false, stream.State(), Fields());
      ghost var before := Value();
      SerializeImpl(w);
      NetEntityStateFieldsInjective(Value(), before);
    }

    method Deserialize(stream: BitStream)
      requires stream.Valid() && HasTag(stream.buffer, NetEntityStateTag)
      modifies this, stream
      ensures stream.buffer == old(stream.buffer)
      ensures Fields() == ReadAll(old(Fields()), old(stream.buffer)[4..])
    {
      var r := new NetStream(true, stream, 0);
      var fcc := stream.Read(4);
      assert Word32(fcc) == NetEntityStateTag;
      TransferAllFacts(true, stream.State(), Fields());
      SerializeImpl(r);
    }
  }

  /** The field list determines the entity state. */
  lemma NetEntityStateFieldsInjective(n: EntityStates.NetEntityState, m: EntityStates.NetEntityState)
    requires NetEntityStateFields(n) == NetEntityStateFields(m)
    ensures n == m
  {
    var f, g := NetEntityStateFields(n), NetEntityStateFields(m);
    assert f[0] == g[0] && f[1] == g[1] && f[2] == g[2] && f[3] == g[3];
    assert f[4] == g[4] && f[5] == g[5] && f[6] == g[6] && f[7] == g[7];
  }

  /** Decoding an encoded NetEntityState gives back every field, whatever the reading object held. */
  lemma NetEntityStateRoundTrip(n: EntityStates.NetEntityState, prior: EntityStates.NetEntityState)
    ensures var bs := Tagged(NetEntityStateTag, EncodeAll(NetEntityStateFields(n)));
            HasTag(bs, NetEntityStateTag) && ReadAll(NetEntityStateFields(prior), bs[4..]) == NetEntityStateFields(n)
  {
    TaggedRoundTrip(NetEntityStateTag, NetEntityStateFields(prior), NetEntityStateFields(n));
  }

  /** What a receiver builds from a sent entity state: whatever its message object held before,
      once Deserialize has read the serialized state the conversion gives the sender's entity state,
      its step and action step exactly and its floats and action through the decoders. */
  lemma ReceivedEntityState<A>(n: EntityStates.NetEntityState, prior: EntityStates.NetEntityState,
                               read: EntityStates.NetEntityState, dec: EntityStates.Decoders<A>)
    requires NetEntityStateFields(read)
             == ReadAll(NetEntityStateFields(prior), Tagged(NetEntityStateTag, EncodeAll(NetEntityStateFields(n)))[4..])
    ensures EntityStates.FromNet(read, dec) == EntityStates.FromNet(n, dec)
    ensures EntityStates.FromNet(read, dec).step == n.step && EntityStates.FromNet(read, dec).actionStep == n.actionStep
  {
    NetEntityStateRoundTrip(n, prior);
    NetEntityStateFieldsInjective(read, n);
  }

  // ---------------------------------------------------------------------------------------------
  // JoinRoom

  /** JoinRoom::Flags, sent as a four-byte enum. */
  const JoinRequest: u32 := 0
  const JoinSuccess: u32 := 1
  const JoinFail: u32 := 2

  function JoinRoomHeader(roomId: u32, flags: u32): seq<Scalar> {
    [U32(roomId), U32(flags)]
  }

  /** The players of a room. */
  class GameRoomData {
    var playersData: seq<Players.NetData>

    constructor ()
      ensures playersData == []
    {
      playersData := [];
    }
  }

  /** What a JoinRoom writer emits: the room id and the flags, then the room's players on success. */
  function JoinRoomPayload(roomId: u32, flags: u32, players: seq<Players.NetData>,
                           codec: ArrayCodec<Players.NetData>): seq<byte>
  {
    EncodeAll(JoinRoomHeader(roomId, flags)) + (if flags == JoinSuccess then codec.encode(players) else [])
  }

  class JoinRoom {
    var roomId: u32
    var flags: u32
    var roomData: GameRoomData?

    function Header(): seq<Scalar>
      reads this
    {
      JoinRoomHeader(roomId, flags)
    }

    constructor (roomId: u32, flags: u32, roomData: GameRoomData?)
      ensures Header() == JoinRoomHeader(roomId, flags) && this.roomData == roomData
    {
      this.roomId, this.flags, this.roomData := roomId, flags, roomData;
    }

    /** The room data travels iff the flags, as they are after their own transfer, say Success; a
        reader then allocates a new GameRoomData to decode into. */
    method SerializeImpl(s: NetStream, codec: ArrayCodec<Players.NetData>)
      requires s.stream.Valid()
      requires !s.isReader && flags == JoinSuccess ==> roomData != null
      modifies this, s.stream
      ensures s.stream.Valid()
      ensures Header() == TransferAll(s.isReader, old(s.stream.State()), old(Header())).0
      ensures flags != JoinSuccess ==>
                roomData == old(roomData) && s.stream.State() == TransferAll(s.isReader, old(s.stream.State()), old(Header())).1
      ensures flags == JoinSuccess && !s.isReader ==>
                && roomData == old(roomData) && roomData != null
                && s.stream.State()
                   == ArrayTransfer(false, TransferAll(false, old(s.stream.State()), old(Header())).1, codec, roomData.playersData).1
      ensures flags == JoinSuccess && s.isReader ==> roomData != null && fresh(roomData)
      ensures flags == JoinSuccess && s.isReader ==>
                (roomData.playersData, s.stream.State())
                == ArrayTransfer(true, TransferAll(true, old(s.stream.State()), old(Header())).1, codec, [])
    {
      ghost var st0 := s.stream.State();
      var ok, a := s.Serialize(U32(roomId));
      ghost var st1 := s.stream.State();
      var b;
      ok, b := s.Serialize(U32(flags));
      TransferTwo(s.isReader, Header(), [a, b], st0, st1, s.stream.State());
      roomId, flags := a.w, b.w;
      if JoinSuccess == flags {
        if !s.isReader {
          var written := s.SerializeArray(codec, roomData.playersData);
        } else {
          var data := new GameRoomData();
          var players := s.SerializeArray(codec, data.playersData);
          data.playersData := players;
          roomData := data;
        }
      }
    }

    method Serialize(stream: BitStream, codec: ArrayCodec<Players.NetData>)
      requires flags == JoinSuccess ==> roomData != null
      modifies this, stream
      ensures stream.Valid() && Header() == old(Header()) && roomData == old(roomData)
      ensures stream.buffer == Tagged(JoinRoomTag, JoinRoomPayload(roomId, flags,
                                      if flags == JoinSuccess then roomData.playersData else [], codec))
    {
      var w := new NetStream(false, stream, 0);
      stream.Write(Bytes32(JoinRoomTag));
      TransferAllFacts(false, stream.State(), Header());
      SerializeImpl(w, codec);
    }

    method Deserialize(stream: BitStream, codec: ArrayCodec<Players.NetData>)
      requires stream.Valid() && HasTag(stream.buffer, JoinRoomTag)
      modifies this, stream
      ensures stream.buffer == old(stream.buffer)
      ensures Header() == ReadAll(old(Header()), old(stream.buffer)[4..])
      ensures flags == JoinSuccess ==> roomData != null && fresh(roomData)
      ensures flags == JoinSuccess ==>
                roomData.playersData
                == ArrayTransfer(true, TransferAll(true, StreamState(old(stream.buffer), 4), old(Header())).1, codec, []).0
      ensures flags != JoinSuccess ==> roomData == old(roomData)
    {
      var r := new NetStream(true, stream, 0);
      var fcc := stream.Read(4);
      assert Word32(fcc) == JoinRoomTag;
      ghost var st4, header := stream.State(), Header();
      TransferAllFacts(true, st4, header);
      SerializeImpl(r, codec);

    }
  }

  /** Where a reader's room data starts: right after the bytes the header's reads consumed. */
  lemma JoinRoomDataStart(bytes: seq<byte>, header: seq<Scalar>)
    requires 4 <= |bytes|
    ensures var used := 4 + Consumed(header, bytes[4..]);
            used <= |bytes| && TransferAll(true, StreamState(bytes, 4), header).1 == StreamState(bytes, used)
  {
    TransferAllFacts(true, StreamState(bytes, 4), header);
    ReadAllShape(header, bytes[4..]);
  }

  /** Reading a JoinRoom payload gives back the room id and the flags always, and the room's players
      too when the flags say Success and the array format decodes its own output. */
  lemma JoinRoomRoundTrip(roomId: u32, flags: u32, players: seq<Players.NetData>,
                          codec: ArrayCodec<Players.NetData>, prior: seq<Scalar>)
    requires SameKinds(prior, JoinRoomHeader(0, 0))
    requires flags == JoinSuccess ==> codec.decode(codec.encode(players)) == Some((players, |codec.encode(players)|))
    ensures var bs := JoinRoomPayload(roomId, flags, players, codec);
            && ReadAll(prior, bs) == JoinRoomHeader(roomId, flags)
            && Consumed(prior, bs) == 8 <= |bs|
            && (flags == JoinSuccess ==> ArrayTransfer(true, StreamState(bs, 8), codec, []).0 == players)
  {
    var h := JoinRoomHeader(roomId, flags);
    var rest := if flags == JoinSuccess then codec.encode(players) else [];
    ReadAllEncoded(prior, h, rest);
    assert |EncodeAll(h)| == 8 by {
      assert EncodeAll(h) == Bytes32(roomId) + EncodeAll(h[1..]);
      assert EncodeAll(h[1..]) == Bytes32(flags) + EncodeAll(h[2..]);
    }
    if flags == JoinSuccess {
      ArrayRoundTrip(codec, players, [], EncodeAll(h), 0);
    }
  }

  // ---------------------------------------------------------------------------------------------
  // StartGame

  /** The player id of a message that has none. */
  const StartGameUnknownId: byte := 0xff

  /** StartGame::Flags, sent as a four-byte enum. */
  const StartReady: u32 := 0
  const StartGo: u32 := 1
  const StartFail: u32 := 2

  function StartGameHeader(roomId: u32, playerId: byte, flags: u32): seq<Scalar> {
    [U32(roomId), U8(playerId), U32(flags)]
  }

  /** The go signal of a room: goTime is a time in seconds sent as a compensated timestamp. No type
      tag is registered for this class, so only its SerializeImpl is modelled. */
  class StartGame {
    var roomId: u32
    var playerId: byte
    var flags: u32
    var goTime: real

    function Header(): seq<Scalar>
      reads this
    {
      StartGameHeader(roomId, playerId, flags)
    }

    constructor (roomId: u32, playerId: byte, flags: u32, goTime: real)
      ensures Header() == StartGameHeader(roomId, playerId, flags) && this.goTime == goTime
    {
      this.roomId, this.playerId, this.flags, this.goTime := roomId, playerId, flags, goTime;
    }

    method SerializeImpl(s: NetStream)
      requires s.stream.Valid()
      requires !s.isReader ==> MillisInRange(goTime)
      modifies this, s.stream
      ensures s.stream.Valid()
      ensures var h := TransferAll(s.isReader, old(s.stream.State()), old(Header()));
              && Header() == h.0
              && (goTime, s.stream.State()) == TimestampTransfer(s.isReader, h.1, s.clockDifferential, old(goTime))
    {
      ghost var st0 := s.stream.State();
      var ok, a := s.Serialize(U32(roomId));
      ghost var st1 := s.stream.State();
      var b, c;
      ok, b := s.Serialize(U8(playerId));
      ghost var st2 := s.stream.State();
      ok, c := s.Serialize(U32(flags));
      TransferThree(s.isReader, Header(), [a, b, c], st0, st1, st2, s.stream.State());
      roomId, playerId, flags := a.w, b.b, c.w;
      var t;
      ok, t := s.SerializeTimestamp(goTime);
      goTime := t;
    }
  }

  /** A StartGame written through one peer and read through another: the room id, the player id and
      the flags come back exactly, and the go time comes back as whole milliseconds shifted by the
      difference of the two clock differentials, so unshifted when they agree. */
  lemma StartGameRoundTrip(roomId: u32, playerId: byte, flags: u32, goTime: real, writer: u32, reader: u32,
                           prior: seq<Scalar>, priorTime: real)
    requires MillisInRange(goTime) && SameKinds(prior, StartGameHeader(0, 0, 0))
    ensures var h := StartGameHeader(roomId, playerId, flags);
            var w := TransferAll(false, StreamState([], 0), h).1;
            var bs := TimestampTransfer(false, w, writer, goTime).1.bytes;
            var rh := TransferAll(true, StreamState(bs, 0), prior);
            var rt := TimestampTransfer(true, rh.1, reader, priorTime);
            && rh.0 == h
            && rt.0 == Wrap32(Millis(goTime) + writer - reader) as real * 0.001
            && (writer == reader ==> rt.0 == Millis(goTime) as real * 0.001)
  {
    var h := StartGameHeader(roomId, playerId, flags);
    TransferAllFacts(false, StreamState([], 0), h);
    assert [] + EncodeAll(h) == EncodeAll(h);
    var stamp := Bytes32(Stamped(Millis(goTime), writer));
    var bs := EncodeAll(h) + stamp;
    TransferAllFacts(true, StreamState(bs, 0), prior);
    ReadAllEncoded(prior, h, stamp);
    TimestampRoundTrip(EncodeAll(h), 0, writer, reader, goTime, priorTime);
  }
}
