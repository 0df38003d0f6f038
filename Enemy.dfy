/**
 * Enemy.cc: an enemy walks a cycle of three waypoints. The server simulates it one fixed step at a
 * time and keeps a bounded newest-first history of its positions; a client clone only stores the
 * states it receives and interpolates between them.
 */
module Enemies {
  import opened Base
  import opened Kinematics
  import opened History

  /** An enemy runs on the server, or is a clone on a client. */
  datatype EnemyType = SimulatedOnServer | Cloned

  /** Enemy::State as Enemy.cc uses it: a step and a position. */
  datatype State = State(step: nat, px: real, py: real)

  /** The three waypoints an enemy is created with. */
  datatype NetData = NetData(p0x: real, p0y: real, p1x: real, p1y: real, p2x: real, p2y: real)

  const ServerCapacity: nat := 32
  const ClonedCapacity: nat := 10
  const WaypointCount: nat := 3
  /** Distance covered per second. */
  const Speed: real := 2.5
  /** A waypoint counts as reached within this squared distance. */
  const ReachedSqDistance: real := 1.0

  /** The capacity of the state history, fixed at construction. */
  function Capacity(t: EnemyType): (c: nat)
    ensures c > 0
  {
    if t == SimulatedOnServer then ServerCapacity else ClonedCapacity
  }

  function StateStep(s: State): nat { s.step }

  function Position(s: State): Vec { Vec(s.px, s.py) }

  // ---------------------------------------------------------------------------------------------
  // The fixed step

  datatype StepResult = StepResult(state: State, waypointIndex: nat)

  /** Whether the enemy is close enough to the waypoint to head for the next one. */
  predicate Reached(waypoint: Vec, st: State) {
    waypoint.Minus(Position(st)).SqrMagnitude() <= ReachedSqDistance
  }

  /** Enemy::Step: switch to the next waypoint (cyclically) when the current one is reached, then
      move towards the waypoint at a fixed speed; the step advances by one. The division by the
      distance is the environment's normalisation. */
  function Stepped(env: Env, waypoints: seq<Vec>, index: nat, st: State): (r: StepResult)
    requires index < |waypoints|
    ensures r.state.step == st.step + 1
    ensures r.waypointIndex < |waypoints|
    ensures Reached(waypoints[index], st) ==> r.waypointIndex == (index + 1) % |waypoints|
    ensures !Reached(waypoints[index], st) ==> r.waypointIndex == index
  {
    var pos := Position(st);
    var i := if Reached(waypoints[index], st) then (index + 1) % |waypoints| else index;
    var toWaypoint := env.unit(waypoints[i].Minus(pos));
    var next := pos.Plus(toWaypoint.Times(Speed * env.fixedTimeStep));
    StepResult(State(st.step + 1, next.x, next.y), i)
  }

  // ---------------------------------------------------------------------------------------------
  // Update on the server

  datatype Run = Run(states: seq<State>, waypointIndex: nat)

  /** The server loop of Enemy::Update: step the newest state and push the result at the front
      (evicting the oldest when full) until the target step is reached. */
  function Advanced(env: Env, waypoints: seq<Vec>, index: nat, states: seq<State>, cap: nat, target: nat): (r: Run)
    requires index < |waypoints| && 0 < |states| <= cap
    ensures 0 < |r.states| <= cap && r.waypointIndex < |waypoints|
    decreases target - states[0].step
  {
    if states[0].step >= target then Run(states, index)
    else
      var n := Stepped(env, waypoints, index, states[0]);
      Advanced(env, waypoints, n.waypointIndex, BoundedInsert(states, 0, n.state, cap), cap, target)
  }

  /** How many steps the server loop advances. */
  function Missing(states: seq<State>, target: nat): nat
    requires |states| > 0
  {
    if target > states[0].step then target - states[0].step else 0
  }

  /** One step of the loop: the new state is one step newer than the front and lands at the front. */
  lemma AdvancedStep(env: Env, waypoints: seq<Vec>, index: nat, states: seq<State>, cap: nat, target: nat)
    requires index < |waypoints| && 0 < |states| <= cap && states[0].step < target
    ensures var n := Stepped(env, waypoints, index, states[0]);
            var pushed := BoundedInsert(states, 0, n.state, cap);
            && pushed[0] == n.state && pushed[0].step == states[0].step + 1
            && |pushed| == (if |states| < cap then |states| + 1 else cap)
            && (forall j :: 0 < j < |pushed| ==> pushed[j] == states[j - 1])
            && Advanced(env, waypoints, index, states, cap, target)
               == Advanced(env, waypoints, n.waypointIndex, pushed, cap, target)
  {
    var n := Stepped(env, waypoints, index, states[0]);
    BoundedInsertShape(states, 0, n.state, cap);
  }

  /** The front and the length after Update: the newest state is at the target step (or unchanged
      when already there), one state was pushed per step, within capacity. */
  lemma {:induction false} AdvancedFront(env: Env, waypoints: seq<Vec>, index: nat, states: seq<State>,
                                         cap: nat, target: nat)
    requires index < |waypoints| && 0 < |states| <= cap
    ensures var r := Advanced(env, waypoints, index, states, cap, target);
            var k := Missing(states, target);
            && r.states[0].step == (if target > states[0].step then target else states[0].step)
            && |r.states| == (if |states| + k <= cap then |states| + k else cap)
            && (k == 0 ==> r == Run(states, index))
    decreases target - states[0].step
  {
    if states[0].step < target {
      AdvancedStep(env, waypoints, index, states, cap, target);
      var n := Stepped(env, waypoints, index, states[0]);
      AdvancedFront(env, waypoints, n.waypointIndex, BoundedInsert(states, 0, n.state, cap), cap, target);
    }
  }

  /** Behind the pushed states the old history is kept, less its oldest entries when the buffer
      overflows. */
  lemma {:induction false} AdvancedKeepsHistory(env: Env, waypoints: seq<Vec>, index: nat, states: seq<State>,
                                                cap: nat, target: nat)
    requires index < |waypoints| && 0 < |states| <= cap
    ensures var r := Advanced(env, waypoints, index, states, cap, target);
            var k := Missing(states, target);
            forall j :: k <= j < |r.states| && j - k < |states| ==> r.states[j] == states[j - k]
    decreases target - states[0].step
  {
    if states[0].step < target {
      AdvancedStep(env, waypoints, index, states, cap, target);
      var n := Stepped(env, waypoints, index, states[0]);
      var pushed := BoundedInsert(states, 0, n.state, cap);
      AdvancedKeepsHistory(env, waypoints, n.waypointIndex, pushed, cap, target);
      var r := Advanced(env, waypoints, n.waypointIndex, pushed, cap, target);
      var k := Missing(states, target);
      assert Missing(pushed, target) == k - 1;
      forall j | k <= j < |r.states| && j - k < |states|
        ensures r.states[j] == states[j - k]
      {
        assert j - (k - 1) < |pushed|;
        PushedAt(states, n.state, cap, j - (k - 1));
        assert r.states[j] == pushed[j - (k - 1)];
      }
    }
  }

  /** After a push at the front, the entry at j > 0 is the one that was at j - 1. */
  lemma PushedAt(states: seq<State>, x: State, cap: nat, j: nat)
    requires 0 < |states| <= cap && 0 < j < |BoundedInsert(states, 0, x, cap)|
    ensures BoundedInsert(states, 0, x, cap)[j] == states[j - 1]
  {
    if |states| == cap {
      assert states[..|states| - 1][j - 1] == states[j - 1];
    }
  }

  /** The states Update pushes are exactly one step apart. */
  lemma {:induction false} AdvancedConsecutive(env: Env, waypoints: seq<Vec>, index: nat, states: seq<State>,
                                               cap: nat, target: nat)
    requires index < |waypoints| && 0 < |states| <= cap
    ensures var r := Advanced(env, waypoints, index, states, cap, target);
            var k := Missing(states, target);
            forall j :: 0 <= j < k && j + 1 < |r.states| ==> r.states[j].step == r.states[j + 1].step + 1
    decreases target - states[0].step
  {
    if states[0].step < target {
      AdvancedStep(env, waypoints, index, states, cap, target);
      var n := Stepped(env, waypoints, index, states[0]);
      var pushed := BoundedInsert(states, 0, n.state, cap);
      AdvancedConsecutive(env, waypoints, n.waypointIndex, pushed, cap, target);
      AdvancedKeepsHistory(env, waypoints, n.waypointIndex, pushed, cap, target);
      AdvancedFront(env, waypoints, n.waypointIndex, pushed, cap, target);
      var r := Advanced(env, waypoints, n.waypointIndex, pushed, cap, target);
      ConsecutiveBehind(r.states, pushed, states[0], Missing(pushed, target));
    }
  }

  /** One more push one step newer than the old front extends the run of consecutive states by one. */
  lemma ConsecutiveBehind(rs: seq<State>, pushed: seq<State>, front: State, m: nat)
    requires 0 < |pushed| && pushed[0].step == front.step + 1 && (1 < |pushed| ==> pushed[1] == front)
    requires |rs| - m <= |pushed|
    requires forall j :: m <= j < |rs| && j - m < |pushed| ==> rs[j] == pushed[j - m]
    requires forall j :: 0 <= j < m && j + 1 < |rs| ==> rs[j].step == rs[j + 1].step + 1
    ensures forall j :: 0 <= j < m + 1 && j + 1 < |rs| ==> rs[j].step == rs[j + 1].step + 1
  {
    if m + 1 < |rs| {
      assert rs[m] == pushed[0];
      assert rs[m + 1] == pushed[1] == front;
    }
  }

  /** Update keeps the history newest-first. */
  lemma {:induction false} AdvancedKeepsOrder(env: Env, waypoints: seq<Vec>, index: nat, states: seq<State>,
                                              cap: nat, target: nat)
    requires index < |waypoints| && 0 < |states| <= cap && NewestFirst(states, StateStep)
    ensures NewestFirst(Advanced(env, waypoints, index, states, cap, target).states, StateStep)
    decreases target - states[0].step
  {
    if states[0].step < target {
      AdvancedStep(env, waypoints, index, states, cap, target);
      var n := Stepped(env, waypoints, index, states[0]);
      BoundedInsertKeepsOrder(states, StateStep, 0, n.state, cap);
      AdvancedKeepsOrder(env, waypoints, n.waypointIndex, BoundedInsert(states, 0, n.state, cap), cap, target);
    }
  }

  // ---------------------------------------------------------------------------------------------
  // Reading the position

  /** How far t lies from the older state's time towards the newer one's. */
  function Progress(env: Env, s0: State, s1: State, t: real): real
    requires s0.step < s1.step && env.fixedTimeStep > 0.0
  {
    var t0 := s0.step as real * env.fixedTimeStep;
    var t1 := s1.step as real * env.fixedTimeStep;
    (t - t0) / (t1 - t0)
  }

  /** Linear interpolation of the positions of the older state s0 and the newer state s1. */
  function Interpolate(env: Env, s0: State, s1: State, t: real): Vec
    requires s0.step < s1.step && env.fixedTimeStep > 0.0
  {
    var u := Progress(env, s0, s1, t);
    Vec(Lerp(s0.px, s1.px, u), Lerp(s0.py, s1.py, u))
  }

  /** Enemy::GetPositionAtTime on a state history. */
  function PositionAt(env: Env, states: seq<State>, t: real): Vec
    requires |states| > 0 && t >= 0.0 && env.fixedTimeStep > 0.0
  {
    match Bracketing(states, StateStep, QueryStep(env, t))
    case TooNew => Position(states[0])
    case TooOld => Position(states[|states| - 1])
    case Between(i) => Interpolate(env, states[i + 1], states[i], t)
  }

  /** Interpolation is exact at the two states' own times. */
  lemma InterpolateEnds(env: Env, s0: State, s1: State)
    requires s0.step < s1.step && env.fixedTimeStep > 0.0
    ensures Interpolate(env, s0, s1, s0.step as real * env.fixedTimeStep) == Position(s0)
    ensures Interpolate(env, s0, s1, s1.step as real * env.fixedTimeStep) == Position(s1)
  {
    var t0 := s0.step as real * env.fixedTimeStep;
    var t1 := s1.step as real * env.fixedTimeStep;
    var w := t1 - t0;
    assert w > 0.0;
    assert w / w == 1.0;
  }

  // ---------------------------------------------------------------------------------------------
  // The mutable enemy

  class Enemy {
    const env: Env
    const entityType: EnemyType
    const capacity: nat
    const waypoints: seq<Vec>
    var states: seq<State>
    var waypointIndex: nat

    predicate Valid()
      reads this
    {
      && capacity == Capacity(entityType)
      && |waypoints| == WaypointCount && waypointIndex < |waypoints|
      && 0 < |states| <= capacity && NewestFirst(states, StateStep)
    }

    constructor (env: Env, entityType: EnemyType, data: NetData)
      ensures Valid() && this.env == env && this.entityType == entityType
      ensures capacity == (if entityType == SimulatedOnServer then 32 else 10)
      ensures states == [State(0, data.p0x, data.p0y)] && waypointIndex == 0
      ensures waypoints == [Vec(data.p0x, data.p0y), Vec(data.p1x, data.p1y), Vec(data.p2x, data.p2y)]
    {
      this.env := env;
      this.entityType := entityType;
      capacity := if entityType == SimulatedOnServer then ServerCapacity else ClonedCapacity;
      waypointIndex := 0;
      states := [State(0, data.p0x, data.p0y)];
      waypoints := [Vec(data.p0x, data.p0y), Vec(data.p1x, data.p1y), Vec(data.p2x, data.p2y)];
    }

    /** Enemy::Step on a state passed by reference: the waypoint index is the enemy's own field. */
    method Step(st: State) returns (next: State)
      requires waypointIndex < |waypoints|
      modifies this`waypointIndex
      ensures StepResult(next, waypointIndex) == Stepped(env, waypoints, old(waypointIndex), st)
    {
      var pos := Vec(st.px, st.py);
      var toWaypoint := waypoints[waypointIndex].Minus(pos);
      if toWaypoint.SqrMagnitude() <= ReachedSqDistance {
        waypointIndex := (waypointIndex + 1) % |waypoints|;
        toWaypoint := waypoints[waypointIndex].Minus(pos);
      }
      var heading := env.unit(toWaypoint);
      pos := pos.Plus(heading.Times(Speed * env.fixedTimeStep));
      next := State(st.step + 1, pos.x, pos.y);
    }

    /** A clone's insertion of a received state: after every state at least as new, with the
        bounded drop/evict rule. */
    method SendEnemyState(step: nat, x: real, y: real)
      requires Valid() && entityType != SimulatedOnServer
      modifies this`states
      ensures Valid()
      ensures states == InsertAfterEqual(old(states), StateStep, State(step, x, y), capacity)
    {
      var i, c := 0, |states|;
      while i < c
        invariant 0 <= i <= c
        invariant forall j :: 0 <= j < i ==> states[j].step >= step
      {
        if states[i].step < step {
          break;
        }
        i := i + 1;
      }
      FirstBelowUnique(states, StateStep, step, i);
      InsertAfterEqualKeepsOrder(states, StateStep, State(step, x, y), capacity);
      if c == capacity {
        if i == c {
          return;
        }
        states := states[..c - 1];
      }
      states := Insert(states, i, State(step, x, y));
    }

    method Update(target: nat)
      requires Valid()
      modifies this`states, this`waypointIndex
      ensures Valid()
      ensures entityType == Cloned ==> states == old(states) && waypointIndex == old(waypointIndex)
      ensures entityType == SimulatedOnServer ==>
                Run(states, waypointIndex) == Advanced(env, waypoints, old(waypointIndex), old(states), capacity, target)
    {
      if entityType == Cloned {
        return;
      }
      AdvancedKeepsOrder(env, waypoints, waypointIndex, states, capacity, target);
      var newState := states[0];
      while newState.step < target
        invariant 0 < |states| <= capacity && newState == states[0] && waypointIndex < |waypoints|
        invariant Advanced(env, waypoints, waypointIndex, states, capacity, target)
               == Advanced(env, waypoints, old(waypointIndex), old(states), capacity, target)
        decreases target - newState.step
      {
        AdvancedStep(env, waypoints, waypointIndex, states, capacity, target);
        newState := Step(newState);
        if capacity == |states| {
          states := states[..|states| - 1];
        }
        states := Insert(states, 0, newState);
      }
    }

    method GetCurrentPosition() returns (x: real, y: real)
      requires Valid()
      ensures Vec(x, y) == Position(states[0])
    {
      x, y := states[0].px, states[0].py;
    }

    method GetPositionAtTime(t: real) returns (x: real, y: real)
      requires Valid() && t >= 0.0 && env.fixedTimeStep > 0.0
      ensures Vec(x, y) == PositionAt(env, states, t)
      ensures (forall j :: 0 <= j < |states| ==> states[j].step < QueryStep(env, t)) ==> Vec(x, y) == Position(states[0])
      ensures states[|states| - 1].step >= QueryStep(env, t) ==> Vec(x, y) == Position(states[|states| - 1])
    {
      var last := |states| - 1;
      var i := last;
      var s := QueryStep(env, t);
      while i >= 0 && states[i].step < s
        invariant -1 <= i <= last
        invariant forall j :: i < j <= last ==> states[j].step < s
        decreases i + 1
      {
        i := i - 1;
      }
      ScanBackUnique(states, StateStep, s, last, i);
      if i == -1 {
        x, y := states[0].px, states[0].py;
      } else if i == last {
        x, y := states[i].px, states[i].py;
      } else {
        var p := Interpolate(env, states[i + 1], states[i], t);
        x, y := p.x, p.y;
      }
    }
  }
}
