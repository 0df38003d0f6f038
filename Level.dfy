/** Level.cc: the level owns the players of a room and fans out the simulation update to them. */
module Levels {
  import opened Base
  import opened Kinematics
  import opened EntityStates
  import opened Players

  /** The type the client Init gives the player at `index`: only its own player is lagless. */
  function ClientType(index: nat, clientPlayerId: byte): (t: EntityType)
    ensures t == SimulatedLagless <==> index == clientPlayerId as nat
    ensures t != SimulatedOnServer
  {
    if index == clientPlayerId as nat then SimulatedLagless else Cloned
  }

  /** The number of players Init creates: the count is read into a uint8. */
  function InitCount(data: seq<NetData>): (n: nat)
    ensures n < 256 && n <= |data|
    ensures |data| < 256 ==> n == |data|
  {
    |data| % 256
  }

  /** The step Level::Update hands to the players: a float time converted to uint32 truncates. */
  function UpdateStep(simTime: real): (s: nat)
    requires simTime >= 0.0
    ensures s as real <= simTime < s as real + 1.0
  {
    simTime.Floor
  }

  class Level {
    const env: Env
    var players: seq<Player>

    /** Every player is a distinct, well-formed object. */
    predicate Valid()
      reads this, players
    {
      && (forall i, j :: 0 <= i < j < |players| ==> players[i] != players[j])
      && (forall i :: 0 <= i < |players| ==> players[i].Valid())
    }

    constructor (env: Env)
      ensures Valid() && this.env == env && players == []
    {
      this.env := env;
      players := [];
    }

    /** The server Init: one server-simulated player per room entry, appended in order. */
    method InitServer(data: seq<NetData>)
      requires Valid()
      modifies this`players
      ensures Valid()
      ensures |players| == |old(players)| + InitCount(data)
      ensures players[..|old(players)|] == old(players)
      ensures forall k :: |old(players)| <= k < |players| ==>
                fresh(players[k]) && players[k].env == env
                && players[k].Data() == NewPlayer(SimulatedOnServer, data[k - |old(players)|])
    {
      var n0 := |players|;
      var id: nat, count := 0, InitCount(data);
      while id < count
        invariant 0 <= id <= count && |players| == n0 + id
        invariant players[..n0] == old(players)
        invariant Valid()
        invariant forall k :: n0 <= k < |players| ==>
                    fresh(players[k]) && players[k].env == env
                    && players[k].Data() == NewPlayer(SimulatedOnServer, data[k - n0])
      {
        var p := new Player(env, SimulatedOnServer, data[id]);
        players := players + [p];
        id := id + 1;
      }
    }

    /** The client Init: the client's own player is lagless and every other one a clone. */
    method InitClient(data: seq<NetData>, clientPlayerId: byte)
      requires Valid()
      modifies this`players
      ensures Valid()
      ensures |players| == |old(players)| + InitCount(data)
      ensures players[..|old(players)|] == old(players)
      ensures forall k :: |old(players)| <= k < |players| ==>
                fresh(players[k]) && players[k].env == env
                && players[k].Data() == NewPlayer(ClientType(k - |old(players)|, clientPlayerId), data[k - |old(players)|])
    {
      var n0 := |players|;
      var id: nat, count := 0, InitCount(data);
      while id < count
        invariant 0 <= id <= count && |players| == n0 + id
        invariant players[..n0] == old(players)
        invariant Valid()
        invariant forall k :: n0 <= k < |players| ==>
                    fresh(players[k]) && players[k].env == env
                    && players[k].Data() == NewPlayer(ClientType(k - n0, clientPlayerId), data[k - n0])
      {
        var p := new Player(env, if id == clientPlayerId as nat then SimulatedLagless else Cloned, data[id]);
        players := players + [p];
        id := id + 1;
      }
    }

    /** Remove the player at index `playerId`; the later ones move down by one. */
    method DeletePlayer(playerId: byte)
      requires Valid() && (playerId as nat) < |players|
      modifies this`players
      ensures Valid()
      ensures players == old(players)[..playerId] + old(players)[playerId as nat + 1..]
      ensures |players| == |old(players)| - 1
      ensures forall k :: 0 <= k < |players| ==>
                players[k] == old(players)[if k < playerId as nat then k else k + 1]
    {
      players := players[..playerId] + players[playerId as nat + 1..];
    }

    /** Update every player, in index order, to the step of the simulation time. */
    method Update(simTime: real)
      requires Valid() && simTime >= 0.0
      requires forall k :: 0 <= k < |players| ==> UpdateOk(players[k].env, players[k].Data(), UpdateStep(simTime))
      modifies players
      ensures Valid()
      ensures forall k :: 0 <= k < |players| ==>
                players[k].Data() == Updated(players[k].env, old(players[k].Data()), UpdateStep(simTime))
    {
      var target := UpdateStep(simTime);
      var i := 0;
      while i < |players|
        invariant 0 <= i <= |players|
        invariant Valid()
        invariant forall k :: 0 <= k < i ==>
                    players[k].Data() == Updated(players[k].env, old(players[k].Data()), target)
        invariant forall k :: i <= k < |players| ==> players[k].Data() == old(players[k].Data())
      {
        var p := players[i];
        assert forall k :: 0 <= k < |players| && k != i ==> players[k] != p;
        p.Update(target);
        i := i + 1;
      }
    }
  }
}
