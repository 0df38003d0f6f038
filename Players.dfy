/**
 * The player entity: a bounded newest-first buffer of inputs and of simulated states, advanced
 * one fixed step at a time. The server simulates every player from its inputs; the owning client
 * predicts its own player ahead of the server and reconciles when server states arrive; the other
 * clients only show states received from the server.
 *
 * The first half of the module is the specification: values (`PlayerData`) and functions over
 * them. The class `Player` at the end holds the same data in mutable fields, and its methods are
 * proved to change it exactly as the functions say.
 */
module Players {
  import opened Base
  import opened Kinematics
  import opened History
  import opened EntityStates

  datatype ActionState = Idle | Moving | Attacking

  type State = EntityState<ActionState>

  /** One fixed step of user input: the stick vector and the attack button. */
  datatype Input = Input(step: nat, x: real, y: real, attack: bool)

  /** What a player is created from. */
  datatype NetData = NetData(startX: real, startY: real)

  /** The fields of a received player state that the state constructor reads. */
  datatype StateMessage = StateMessage(
    step: nat, x: real, y: real, dx: real, dy: real, actionState: ActionState, actionStep: nat)

  /** Both buffers hold at most 32 entries. */
  const Capacity: nat := 32
  /** An attack lasts this many steps. */
  const AttackSteps: nat := 30
  /** Units per second of a full stick deflection and of the start of an attack. */
  const Speed: real := 10.0
  /** The stick counts as moved when its length exceeds 0.02, i.e. its squared length 0.0004. */
  const MoveThreshold: real := 0.0004
  /** Squared distance from which a server state is a misprediction. */
  const Tolerance: real := 0.0025
  /** Per-second decay rate of the smoothing offset. */
  const OffsetDecay: real := 16.0

  function InputStep(i: Input): nat { i.step }
  function StateStep(s: State): nat { s.step }

  // ---------------------------------------------------------------------------------------------
  // The fixed step

  predicate IsMoving(input: Input) {
    input.x * input.x + input.y * input.y > MoveThreshold
  }

  /** The normalised stick direction. */
  function StickDirection(env: Env, input: Input): Vec {
    env.unit(Vec(input.x, input.y))
  }

  /** The displacement of a moving step: along the stick, scaled by the square of its length
      capped at 1. */
  function Drive(env: Env, input: Input): Vec {
    var v := Vec(input.x, input.y);
    StickDirection(env, input).Times(Min(1.0, v.SqrMagnitude()) * Speed * env.fixedTimeStep)
  }

  /** How many steps into its attack the state is after the input's step (uint32 arithmetic). */
  function AttackStep(st: State, input: Input): (r: u32)
    ensures st.actionStep <= input.step + 1 < st.actionStep + U32Modulus ==> r == input.step + 1 - st.actionStep
  {
    Wrap32(input.step + 1 - st.actionStep)
  }

  /** Begin an attack at the next step, turning to the stick if it is moved. */
  function StartAttack(env: Env, st: State, input: Input): (r: State)
    ensures r.actionState == Attacking && r.actionStep == input.step + 1 && r.step == st.step
    ensures !IsMoving(input) ==> r.direction == st.direction
  {
    var dir := if IsMoving(input) then StickDirection(env, input) else st.direction;
    st.(actionState := Attacking, actionStep := input.step + 1, direction := dir,
        position := st.position.Plus(dir.Times(Speed * env.fixedTimeStep)))
  }

  /** Player::Step: advance a state by one input. The discrete machine is exact; the stick only
      enters through `IsMoving`, `StickDirection` and `Drive`. */
  function Step(env: Env, st: State, input: Input): (r: State)
    requires st.step <= input.step
    ensures r.step == input.step + 1
    ensures st.actionState != Attacking && input.attack ==>
              r.actionState == Attacking && r.actionStep == input.step + 1
    ensures st.actionState == Idle && !input.attack ==>
              if IsMoving(input) then r.actionState == Moving && r.actionStep == input.step + 1
              else r == st.(step := input.step + 1)
    ensures st.actionState == Moving && !input.attack ==>
              if IsMoving(input) then r.actionState == Moving && r.actionStep == st.actionStep
              else r == st.(step := input.step + 1, actionState := Idle, actionStep := input.step + 1)
    ensures st.actionState == Attacking ==>
              r.direction == st.direction
              && if AttackStep(st, input) >= AttackSteps
                 then r.actionState == Idle && r.actionStep == input.step + 1
                 else r.actionState == Attacking && r.actionStep == st.actionStep
  {
    var next := match st.actionState
      case Idle =>
        if input.attack then StartAttack(env, st, input)
        else if IsMoving(input) then
          st.(actionState := Moving, actionStep := input.step + 1,
              position := st.position.Plus(Drive(env, input)), direction := StickDirection(env, input))
        else st
      case Moving =>
        if input.attack then StartAttack(env, st, input)
        else if !IsMoving(input) then st.(actionState := Idle, actionStep := input.step + 1)
        else st.(position := st.position.Plus(Drive(env, input)), direction := StickDirection(env, input))
      case Attacking =>
        var attackStep := AttackStep(st, input);
        var speed := Lerp(Speed, 0.0, attackStep as real / AttackSteps as real);
        var moved := st.(position := st.position.Plus(st.direction.Times(speed * env.fixedTimeStep)));
        if attackStep >= AttackSteps then moved.(actionState := Idle, actionStep := input.step + 1)
        else moved;
    next.(step := input.step + 1)
  }

  /** An attack that began at step a (and is not older than 2^32 steps) is over exactly when the
      input of step a + 29 has been applied. */
  lemma AttackEndsAfterThirtySteps(env: Env, st: State, input: Input)
    requires st.step <= input.step && st.actionState == Attacking
    requires st.actionStep <= input.step + 1 < st.actionStep + U32Modulus
    ensures Step(env, st, input).actionState == Idle <==> input.step + 1 >= st.actionStep + AttackSteps
    ensures Step(env, st, input).actionState == Attacking <==> input.step + 1 < st.actionStep + AttackSteps
  {
    assert AttackStep(st, input) == input.step + 1 - st.actionStep;
  }

  // ---------------------------------------------------------------------------------------------
  // The player as a value

  datatype PlayerData = PlayerData(
    entityType: EntityType, inputs: seq<Input>, states: seq<State>, offset: Vec, hasChanged: bool)

  /** What every operation keeps: both buffers within capacity and newest-first, and at least one
      state (the newest one is read everywhere). */
  predicate WellFormed(d: PlayerData) {
    && |d.inputs| <= Capacity
    && 0 < |d.states| <= Capacity
    && NewestFirst(d.inputs, InputStep)
    && NewestFirst(d.states, StateStep)
  }

  /** Player::Player: one idle state at step 0 at the start position, no inputs, no offset. */
  function NewPlayer(entityType: EntityType, data: NetData): (d: PlayerData)
    ensures WellFormed(d) && d.entityType == entityType && d.inputs == [] && !d.hasChanged && d.offset == Zero
    ensures |d.states| == 1 && d.states[0].step == 0 && d.states[0].actionState == Idle
    ensures d.states[0].position == Vec(data.startX, data.startY)
  {
    PlayerData(entityType, [], [MakeState(0, data.startX, data.startY, Idle)], Zero, false)
  }

  /** State(playerState): the received fields become a state, one for one. */
  function StateOf(m: StateMessage): State {
    EntityState(m.step, Vec(m.x, m.y), Vec(m.dx, m.dy), m.actionState, m.actionStep)
  }

  /** FillPlayerState: the newest state written into a message. */
  function MessageOf(s: State): (m: StateMessage)
    ensures StateOf(m) == s
  {
    StateMessage(s.step, s.position.x, s.position.y, s.direction.x, s.direction.y, s.actionState, s.actionStep)
  }

  /** Reading a message as a state and writing the state back gives the message again. */
  lemma MessageRoundTrip(m: StateMessage)
    ensures MessageOf(StateOf(m)) == m
  {
  }

  // ---------------------------------------------------------------------------------------------
  // Update: the client's prediction

  /** The source's asserts along the lagless replay `while (i >= 0 && newState.step < step)
      Step(newState, inputs[i--])`: the index is in range and each input is not older than the state. */
  predicate LaglessReplayOk(env: Env, st: State, inputs: seq<Input>, i: int, target: nat)
    decreases i + 1
  {
    i < 0 || st.step >= target
    || (i < |inputs| && st.step <= inputs[i].step
        && LaglessReplayOk(env, Step(env, st, inputs[i]), inputs, i - 1, target))
  }

  /** The predicted state: inputs applied from index i towards the newest until the target step. */
  function LaglessReplay(env: Env, st: State, inputs: seq<Input>, i: int, target: nat): (r: State)
    requires LaglessReplayOk(env, st, inputs, i, target)
    ensures r.step >= st.step
    ensures i >= 0 && st.step < target ==> r.step > st.step
    decreases i + 1
  {
    if i < 0 || st.step >= target then st
    else LaglessReplay(env, Step(env, st, inputs[i]), inputs, i - 1, target)
  }

  /** What one Update does to the history: the new buffer of states and whether it changed. */
  datatype Pass = Pass(states: seq<State>, changed: bool)

  /** The client's half of Update: the predicted state is pushed when it is newer than the newest. */
  function LaglessPush(env: Env, states: seq<State>, inputs: seq<Input>, target: nat): (r: Pass)
    requires 0 < |states| <= Capacity
    requires |inputs| > 0 ==> LaglessReplayOk(env, states[0], inputs, FirstAtOrBelow(inputs, InputStep, states[0].step), target)
    ensures 0 < |r.states| <= Capacity
    ensures r.changed <==> r.states[0].step > states[0].step
    ensures !r.changed ==> r.states == states
  {
    if |inputs| == 0 then Pass(states, false)
    else
      var next := LaglessReplay(env, states[0], inputs, FirstAtOrBelow(inputs, InputStep, states[0].step), target);
      if next.step > states[0].step then Pass(BoundedInsert(states, 0, next, Capacity), true)
      else Pass(states, false)
  }

  /** The client pushes at most its one predicted state, at the front, exactly when it is newer
      than the newest; the history stays newest-first and otherwise keeps its order. */
  lemma LaglessPushFacts(env: Env, states: seq<State>, inputs: seq<Input>, target: nat)
    requires 0 < |states| <= Capacity && NewestFirst(states, StateStep)
    requires |inputs| > 0 ==> LaglessReplayOk(env, states[0], inputs, FirstAtOrBelow(inputs, InputStep, states[0].step), target)
    ensures var r := LaglessPush(env, states, inputs, target);
            && 0 < |r.states| <= Capacity && NewestFirst(r.states, StateStep)
            && (r.changed <==> r.states[0].step > states[0].step)
            && (r.changed ==>
                  && |inputs| > 0
                  && r.states[0] == LaglessReplay(env, states[0], inputs, FirstAtOrBelow(inputs, InputStep, states[0].step), target)
                  && r.states[1..] == states[..|r.states| - 1])
            && (!r.changed ==> r.states == states)
  {
    if |inputs| > 0 {
      var next := LaglessReplay(env, states[0], inputs, FirstAtOrBelow(inputs, InputStep, states[0].step), target);
      if next.step > states[0].step {
        InsertKeepsOrder(if |states| == Capacity then states[..|states| - 1] else states, StateStep, 0, next);
        var r := BoundedInsert(states, 0, next, Capacity);
        assert r[1..] == states[..|r| - 1];
      }
    }
  }

  // ---------------------------------------------------------------------------------------------
  // Update: the server's simulation

  /** The source's asserts along the server loop `while (i >= 0 && inputs[i].step <= step)`. */
  predicate ServerReplayOk(env: Env, st: State, pending: seq<Input>, i: int, target: nat)
    requires i < |pending|
    decreases i + 1
  {
    i < 0 || pending[i].step > target
    || (st.step <= pending[i].step && ServerReplayOk(env, Step(env, st, pending[i]), pending, i - 1, target))
  }

  /** The server loop: apply inputs from index i towards the newest while they are not past the
      target, pushing every result newer than the last pushed one at the front. */
  function ServerRun(env: Env, states: seq<State>, st: State, prev: nat, changed: bool,
                     pending: seq<Input>, i: int, target: nat): (r: Pass)
    requires 0 < |states| <= Capacity && i < |pending|
    requires ServerReplayOk(env, st, pending, i, target)
    ensures 0 < |r.states| <= Capacity
    ensures changed ==> r.changed
    decreases i + 1
  {
    if i < 0 || pending[i].step > target then Pass(states, changed)
    else
      var next := Step(env, st, pending[i]);
      if next.step > prev then
        ServerRun(env, BoundedInsert(states, 0, next, Capacity), next, next.step, true, pending, i - 1, target)
      else
        ServerRun(env, states, next, prev, changed, pending, i - 1, target)
  }

  /** How many inputs the server loop consumes from index i. */
  function Consumed(pending: seq<Input>, i: int, target: nat): (n: nat)
    requires -1 <= i < |pending|
    ensures n <= i + 1
    ensures n > 0 ==> pending[i].step <= target
    decreases i + 1
  {
    if i < 0 || pending[i].step > target then 0 else 1 + Consumed(pending, i - 1, target)
  }

  /** On a newest-first buffer the server consumes exactly the inputs not past the target. */
  lemma {:induction false} ConsumedExactly(pending: seq<Input>, i: int, target: nat)
    requires -1 <= i < |pending| && NewestFirst(pending, InputStep)
    ensures forall j :: 0 <= j <= i ==> (pending[j].step <= target <==> i - Consumed(pending, i, target) < j)
    decreases i + 1
  {
    if i >= 0 && pending[i].step <= target {
      ConsumedExactly(pending, i - 1, target);
    }
  }

  /** One consumed input: the step's state is newer than the front, so it is pushed. */
  lemma ServerRunStep(env: Env, states: seq<State>, changed: bool, pending: seq<Input>, i: int, target: nat)
    requires 0 < |states| <= Capacity && 0 <= i < |pending| && pending[i].step <= target
    requires ServerReplayOk(env, states[0], pending, i, target)
    ensures var next := Step(env, states[0], pending[i]);
            var pushed := BoundedInsert(states, 0, next, Capacity);
            && next.step == pending[i].step + 1 > states[0].step
            && pushed[0] == next
            && pushed[1..] == states[..|pushed| - 1]
            && ServerReplayOk(env, pushed[0], pending, i - 1, target)
            && ServerRun(env, states, states[0], states[0].step, changed, pending, i, target)
               == ServerRun(env, pushed, pushed[0], pushed[0].step, true, pending, i - 1, target)
  {
    var next := Step(env, states[0], pending[i]);
    var pushed := BoundedInsert(states, 0, next, Capacity);
    assert pushed[1..] == states[..|pushed| - 1];
  }

  /** Server mode, the buffer: every consumed input pushes a state (the `if` on the step never
      fails, given the source's asserts), so `hasChanged` is set exactly when an input was consumed;
      behind the pushed states the old history is kept, less its oldest entries when the buffer
      overflows. */
  lemma {:induction false} ServerRunPushes(env: Env, states: seq<State>, changed: bool,
                                           pending: seq<Input>, i: int, target: nat)
    requires 0 < |states| <= Capacity && -1 <= i < Capacity && i < |pending|
    requires ServerReplayOk(env, states[0], pending, i, target)
    ensures var r := ServerRun(env, states, states[0], states[0].step, changed, pending, i, target);
            var n := Consumed(pending, i, target);
            && r.changed == (changed || n > 0)
            && |r.states| == (if |states| + n <= Capacity then |states| + n else Capacity)
            && r.states[n..] == states[..|r.states| - n]
    decreases i + 1
  {
    ServerRunCount(env, states, changed, pending, i, target);
    if i >= 0 && pending[i].step <= target {
      ServerRunStep(env, states, changed, pending, i, target);
      var pushed := BoundedInsert(states, 0, Step(env, states[0], pending[i]), Capacity);
      ServerRunPushes(env, pushed, true, pending, i - 1, target);
      var r := ServerRun(env, pushed, pushed[0], pushed[0].step, true, pending, i - 1, target);
      var m := Consumed(pending, i - 1, target);
      ShiftedBehind(r.states, pushed, states, m);
    }
  }

  /** The counting half of ServerRunPushes: the change flag and the length of the history. */
  lemma {:induction false} ServerRunCount(env: Env, states: seq<State>, changed: bool,
                                          pending: seq<Input>, i: int, target: nat)
    requires 0 < |states| <= Capacity && -1 <= i < |pending|
    requires ServerReplayOk(env, states[0], pending, i, target)
    ensures var r := ServerRun(env, states, states[0], states[0].step, changed, pending, i, target);
            var n := Consumed(pending, i, target);
            && r.changed == (changed || n > 0)
            && |r.states| == (if |states| + n <= Capacity then |states| + n else Capacity)
    decreases i + 1
  {
    if i >= 0 && pending[i].step <= target {
      ServerRunStep(env, states, changed, pending, i, target);
      var pushed := BoundedInsert(states, 0, Step(env, states[0], pending[i]), Capacity);
      ServerRunCount(env, pushed, true, pending, i - 1, target);
    }
  }

  /** The old history behind m + 1 pushes: behind m pushes onto a history that is the old one
      shifted back by one. */
  lemma ShiftedBehind<T>(r: seq<T>, pushed: seq<T>, before: seq<T>, m: nat)
    requires m < |r| && |r| - m <= |pushed| && 0 < |pushed| <= |before| + 1
    requires r[m..] == pushed[..|r| - m] && pushed[1..] == before[..|pushed| - 1]
    ensures r[m + 1..] == before[..|r| - m - 1]
  {
    var k := |r| - m;
    assert r[m + 1..] == r[m..][1..] == pushed[..k][1..];
    assert pushed[..k][1..] == pushed[1..][..k - 1] == before[..|pushed| - 1][..k - 1];
  }

  /** Server mode, the front: with no input consumed the history is untouched; otherwise the
      newest state ends one step after the last consumed input, newer than the old front. */
  lemma {:induction false} ServerRunFront(env: Env, states: seq<State>, changed: bool,
                                          pending: seq<Input>, i: int, target: nat)
    requires 0 < |states| <= Capacity && -1 <= i < |pending|
    requires ServerReplayOk(env, states[0], pending, i, target)
    ensures var r := ServerRun(env, states, states[0], states[0].step, changed, pending, i, target);
            var n := Consumed(pending, i, target);
            && (n == 0 ==> r.states == states)
            && (n > 0 ==> r.states[0].step == pending[i - n + 1].step + 1 && r.states[0].step > states[0].step)
    decreases i + 1
  {
    if i >= 0 && pending[i].step <= target {
      ServerRunStep(env, states, changed, pending, i, target);
      var pushed := BoundedInsert(states, 0, Step(env, states[0], pending[i]), Capacity);
      ServerRunFront(env, pushed, true, pending, i - 1, target);
    }
  }

  /** Server mode, the order: the pushed states are strictly newer one after the other and newer
      than the old front, so the history stays newest-first. */
  lemma {:induction false} ServerRunOrder(env: Env, states: seq<State>, changed: bool,
                                          pending: seq<Input>, i: int, target: nat)
    requires 0 < |states| <= Capacity && -1 <= i < Capacity && i < |pending|
    requires NewestFirst(states, StateStep)
    requires ServerReplayOk(env, states[0], pending, i, target)
    ensures var r := ServerRun(env, states, states[0], states[0].step, changed, pending, i, target);
            var n := Consumed(pending, i, target);
            && NewestFirst(r.states, StateStep)
            && (forall j :: 0 <= j < n && j + 1 < |r.states| ==> r.states[j].step > r.states[j + 1].step)
    decreases i + 1
  {
    ServerRunStrict(env, states, changed, pending, i, target);
    if i >= 0 && pending[i].step <= target {
      ServerRunStep(env, states, changed, pending, i, target);
      var next := Step(env, states[0], pending[i]);
      BoundedInsertKeepsOrder(states, StateStep, 0, next, Capacity);
      ServerRunOrder(env, BoundedInsert(states, 0, next, Capacity), true, pending, i - 1, target);
    }
  }

  /** The pushed states alone: each consumed input leaves a state strictly newer than the one
      behind it, whatever order the old history was in. */
  lemma {:induction false} ServerRunStrict(env: Env, states: seq<State>, changed: bool,
                                           pending: seq<Input>, i: int, target: nat)
    requires 0 < |states| <= Capacity && -1 <= i < Capacity && i < |pending|
    requires ServerReplayOk(env, states[0], pending, i, target)
    ensures var r := ServerRun(env, states, states[0], states[0].step, changed, pending, i, target);
            var n := Consumed(pending, i, target);
            forall j :: 0 <= j < n && j + 1 < |r.states| ==> r.states[j].step > r.states[j + 1].step
    decreases i + 1
  {
    if i >= 0 && pending[i].step <= target {
      ServerRunStep(env, states, changed, pending, i, target);
      var pushed := BoundedInsert(states, 0, Step(env, states[0], pending[i]), Capacity);
      ServerRunStrict(env, pushed, true, pending, i - 1, target);
      ServerRunPushes(env, pushed, true, pending, i - 1, target);
      var r := ServerRun(env, pushed, pushed[0], pushed[0].step, true, pending, i - 1, target);
      assert r == ServerRun(env, states, states[0], states[0].step, changed, pending, i, target);
      var m := Consumed(pending, i - 1, target);
      assert Consumed(pending, i, target) == m + 1;
      PushedStrictly(r.states, pushed, states, m);
    }
  }

  /** One more push keeps the pushed states strictly newer one after another: the newest of the
      earlier pushes sits on the state pushed first, which is newer than the old front. */
  lemma PushedStrictly(r: seq<State>, pushed: seq<State>, before: seq<State>, m: nat)
    requires 0 < |before| && 1 < |pushed| <= |before| + 1 && m < |r| && |r| - m <= |pushed|
    requires r[m..] == pushed[..|r| - m] && pushed[1..] == before[..|pushed| - 1]
    requires pushed[0].step > before[0].step
    requires forall j :: 0 <= j < m && j + 1 < |r| ==> r[j].step > r[j + 1].step
    ensures forall j :: 0 <= j < m + 1 && j + 1 < |r| ==> r[j].step > r[j + 1].step
  {
    if m + 1 < |r| {
      assert r[m] == pushed[0] && r[m + 1] == pushed[1] == before[0];
    }
  }

  // ---------------------------------------------------------------------------------------------
  // Update

  /** The source's asserts and index reads of Player::Update hold for this data and target step. */
  predicate UpdateOk(env: Env, d: PlayerData, target: nat)
    requires WellFormed(d)
  {
    match d.entityType
    case Cloned => true
    case SimulatedLagless =>
      |d.inputs| == 0
      || LaglessReplayOk(env, d.states[0], d.inputs, FirstAtOrBelow(d.inputs, InputStep, d.states[0].step), target)
    case SimulatedOnServer =>
      var p := TrimOlder(d.inputs, InputStep, d.states[0].step);
      ServerReplayOk(env, d.states[0], p, |p| - 1, target)
  }

  /** One step of the lagless client's offset decay. */
  function DecayedOffset(env: Env, offset: Vec): Vec {
    offset.Times(1.0 - env.fixedTimeStep * OffsetDecay)
  }

  /** Player::Update(step) on the value of a player. */
  function Updated(env: Env, d: PlayerData, target: nat): (r: PlayerData)
    requires WellFormed(d) && UpdateOk(env, d, target)
    ensures r.entityType == d.entityType && 0 < |r.states| <= Capacity
    ensures d.entityType != SimulatedOnServer ==> r.inputs == d.inputs
  {
    match d.entityType
    case Cloned => d
    case SimulatedLagless =>
      var run := LaglessPush(env, d.states, d.inputs, target);
      d.(states := run.states, hasChanged := run.changed, offset := DecayedOffset(env, d.offset))
    case SimulatedOnServer =>
      var prev := d.states[0].step;
      var p := TrimOlder(d.inputs, InputStep, prev);
      var run := ServerRun(env, d.states, d.states[0], prev, false, p, |p| - 1, target);
      d.(inputs := p, states := run.states, hasChanged := run.changed)
  }

  lemma UpdatedWellFormed(env: Env, d: PlayerData, target: nat)
    requires WellFormed(d) && UpdateOk(env, d, target)
    ensures WellFormed(Updated(env, d, target))
  {
    UpdatedFacts(env, d, target);
  }

  /** The server's Update, pieced together: trimmed inputs and the run over them, nothing else. */
  lemma ServerUpdated(env: Env, d: PlayerData, target: nat, r: PlayerData)
    requires WellFormed(d) && UpdateOk(env, d, target) && d.entityType == SimulatedOnServer
    requires r.entityType == d.entityType && r.offset == d.offset
    requires r.inputs == TrimOlder(d.inputs, InputStep, d.states[0].step)
    requires Pass(r.states, r.hasChanged)
             == ServerRun(env, d.states, d.states[0], d.states[0].step, false, r.inputs, |r.inputs| - 1, target)
    ensures r == Updated(env, d, target) && WellFormed(r)
  {
    UpdatedWellFormed(env, d, target);
  }

  /** What Update promises: well-formedness kept; a clone untouched; otherwise `hasChanged` holds
      exactly when a newer state was pushed, the newest step never decreases, the client inserts at
      most its one predicted state, only the client decays its offset and only the server trims its
      inputs. */
  lemma UpdatedFacts(env: Env, d: PlayerData, target: nat)
    requires WellFormed(d) && UpdateOk(env, d, target)
    ensures var r := Updated(env, d, target);
            && WellFormed(r) && r.entityType == d.entityType
            && (d.entityType == Cloned ==> r == d)
            && (d.entityType != Cloned ==> (r.hasChanged <==> r.states[0].step > d.states[0].step))
            && r.states[0].step >= d.states[0].step
            && (d.entityType == SimulatedLagless ==>
                  r.inputs == d.inputs && r.offset == DecayedOffset(env, d.offset)
                  && (r.hasChanged ==> r.states[1..] == d.states[..|r.states| - 1])
                  && (!r.hasChanged ==> r.states == d.states))
            && (d.entityType == SimulatedOnServer ==>
                  r.offset == d.offset && r.inputs == TrimOlder(d.inputs, InputStep, d.states[0].step))
  {
    var prev := d.states[0].step;
    match d.entityType
    case Cloned =>
    case SimulatedLagless =>
      LaglessPushFacts(env, d.states, d.inputs, target);
    case SimulatedOnServer =>
      var p := TrimOlder(d.inputs, InputStep, prev);
      TrimOlderFacts(d.inputs, InputStep, prev);
      ServerRunOrder(env, d.states, false, p, |p| - 1, target);
      ServerRunFront(env, d.states, false, p, |p| - 1, target);
      ServerRunPushes(env, d.states, false, p, |p| - 1, target);
  }

  // ---------------------------------------------------------------------------------------------
  // SendPlayerState: receiving a server state

  /** Whether the client's own state at that step is off the server's by more than the tolerance. */
  predicate Mispredicted(server: State, client: State) {
    server.position.Minus(client.position).SqrMagnitude() > Tolerance
  }

  /** The player as it is just before the resimulation of a misprediction. */
  function Restarted(d: PlayerData, s: State): (r: PlayerData)
    requires WellFormed(d)
    ensures WellFormed(r)
  {
    d.(entityType := SimulatedOnServer, states := [s])
  }

  /** The source's asserts and index reads of SendPlayerState hold: for the predicting client, some
      kept state is not newer than the received one (`states[i]` is read), and the resimulation of a
      misprediction meets Update's own. */
  predicate ReceiveOk(env: Env, d: PlayerData, s: State)
    requires WellFormed(d)
  {
    d.entityType == SimulatedLagless ==>
      var i := FirstAtOrBelow(d.states, StateStep, s.step);
      && i < |d.states|
      && (i > 0 && Mispredicted(s, d.states[i]) ==> UpdateOk(env, Restarted(d, s), d.states[0].step))
  }

  /** The resimulation after a misprediction, from the player whose older states were dropped:
      restart as a server from the received state, run Update to the newest predicted step, and
      set the smoothing offset so that the position shown stays where it was. */
  function Resimulated(env: Env, d: PlayerData, s: State): (r: PlayerData)
    requires WellFormed(d) && UpdateOk(env, Restarted(d, s), d.states[0].step)
    ensures r.entityType == SimulatedLagless && |r.states| > 0
    ensures r.states[0].position.Plus(r.offset) == d.states[0].position.Plus(d.offset)
  {
    var shown := d.states[0].position.Plus(d.offset);
    var r := Updated(env, Restarted(d, s), d.states[0].step);
    r.(entityType := SimulatedLagless, offset := shown.Minus(r.states[0].position))
  }

  /** Player::SendPlayerState on the value of a player. */
  function Received(env: Env, d: PlayerData, s: State): (r: PlayerData)
    requires WellFormed(d) && d.entityType != SimulatedOnServer && ReceiveOk(env, d, s)
    ensures r.entityType == d.entityType && 0 < |r.states| <= Capacity
  {
    var i := FirstAtOrBelow(d.states, StateStep, s.step);
    if d.entityType == Cloned then d.(states := InsertBeforeEqual(d.states, StateStep, s, Capacity))
    else if i == 0 then d.(states := [s], offset := Zero)
    else if !Mispredicted(s, d.states[i]) then d.(states := d.states[..i])
    else Resimulated(env, d.(states := d.states[..i]), s)
  }

  /** Player::GetCurrentPosition: the client shows its prediction displaced by the smoothing offset. */
  function CurrentPosition(d: PlayerData): Vec
    requires WellFormed(d)
  {
    if d.entityType == SimulatedLagless then d.states[0].position.Plus(d.offset) else d.states[0].position
  }

  /** What SendPlayerState promises. A clone inserts the state in order (before equal steps, with
      the bounded drop/evict rule). The predicting client drops every state not newer than the
      received one; if none was newer it snaps to the received state; otherwise the newer states
      stay, and on a misprediction the history is rebuilt from the received state by the server
      simulation, so the player is again a predicting client and the position shown does not jump. */
  lemma ReceivedFacts(env: Env, d: PlayerData, s: State)
    requires WellFormed(d) && d.entityType != SimulatedOnServer && ReceiveOk(env, d, s)
    ensures var r := Received(env, d, s);
            var i := FirstAtOrBelow(d.states, StateStep, s.step);
            && WellFormed(r) && r.entityType == d.entityType
            && (d.entityType == Cloned ==>
                  r == d.(states := InsertBeforeEqual(d.states, StateStep, s, Capacity)))
            && (d.entityType == SimulatedLagless && i == 0 ==> r.states == [s] && r.offset == Zero && r.inputs == d.inputs)
            && (d.entityType == SimulatedLagless && i > 0 && !Mispredicted(s, d.states[i]) ==>
                  r == d.(states := d.states[..i])
                  && forall j :: 0 <= j < |r.states| ==> r.states[j].step > s.step)
            && (d.entityType == SimulatedLagless && i > 0 && Mispredicted(s, d.states[i]) ==>
                  r.inputs == TrimOlder(d.inputs, InputStep, s.step) && r.states[0].step >= s.step)
            && (d.entityType == SimulatedLagless && i > 0 ==> CurrentPosition(r) == CurrentPosition(d))
  {
    var i := FirstAtOrBelow(d.states, StateStep, s.step);
    if d.entityType == Cloned {
      InsertBeforeEqualKeepsOrder(d.states, StateStep, s, Capacity);
      var r := InsertBeforeEqual(d.states, StateStep, s, Capacity);
      assert |r| >= |d.states|;
    } else if i > 0 {
      if Mispredicted(s, d.states[i]) {
        var kept := d.(states := d.states[..i]);
        ResimulatedFacts(env, kept, s);
        assert Received(env, d, s) == Resimulated(env, kept, s);
      } else {
        PrefixKeepsOrder(d.states, StateStep, i);
      }
    }
  }

  /** The resimulation leaves a predicting client whose inputs are those not older than the
      received state, whose newest state is not older than it, and which is shown where it was. */
  lemma ResimulatedFacts(env: Env, d: PlayerData, s: State)
    requires WellFormed(d) && d.entityType == SimulatedLagless && UpdateOk(env, Restarted(d, s), d.states[0].step)
    ensures var r := Resimulated(env, d, s);
            && WellFormed(r) && r.entityType == SimulatedLagless
            && r.inputs == TrimOlder(d.inputs, InputStep, s.step)
            && r.states[0].step >= s.step
            && CurrentPosition(r) == CurrentPosition(d)
  {
    UpdatedFacts(env, Restarted(d, s), d.states[0].step);
  }

  // ---------------------------------------------------------------------------------------------
  // Reading the state

  /** What a state is shown as: position, direction, action and the time the action has run. */
  datatype Sample = Sample(position: Vec, direction: Vec, action: ActionState, time: real)

  /** The time a state's action has run, from uint32 step arithmetic. */
  function ActionTime(env: Env, s: State): (r: real)
    ensures s.actionStep <= s.step < s.actionStep + U32Modulus ==>
              r == (s.step - s.actionStep) as real * env.fixedTimeStep
  {
    Wrap32(s.step - s.actionStep) as real * env.fixedTimeStep
  }

  function Snapshot(env: Env, s: State): Sample {
    Sample(s.position, s.direction, s.actionState, ActionTime(env, s))
  }

  /** The action time of an interpolated sample AS WRITTEN: the older state's step minus the
      NEWER state's action step, in uint32 arithmetic, plus the time since the older state. */
  function BetweenTimeAsWritten(env: Env, s0: State, s1: State, t: real): (r: real)
    ensures s1.actionStep <= s0.step < s1.actionStep + U32Modulus ==>
              r == t - s1.actionStep as real * env.fixedTimeStep
  {
    Wrap32(s0.step - s1.actionStep) as real * env.fixedTimeStep + (t - s0.step as real * env.fixedTimeStep)
  }

  /** When the newer state has just begun a new action, the time reported for the older state's
      action wraps around to 2^32 steps. */
  lemma BetweenTimeWraps(env: Env)
    requires env.fixedTimeStep > 0.0
    ensures var s0 := EntityState(10, Zero, Vec(0.0, 1.0), Idle, 0);
            var s1 := EntityState(11, Zero, Vec(0.0, 1.0), Moving, 11);
            var t := 11.0 * env.fixedTimeStep;
            && QueryStep(env, t) == 11
            && BetweenTimeAsWritten(env, s0, s1, t) == 4294967296.0 * env.fixedTimeStep
            && BetweenTime(env, s0, t) == 11.0 * env.fixedTimeStep
  {
    var t := 11.0 * env.fixedTimeStep;
    assert t / env.fixedTimeStep == 11.0;
  }

  /** The action time of an interpolated sample as evidently intended: the time, at t, since the
      reported (older) state's action began. */
  function BetweenTime(env: Env, s0: State, t: real): (r: real)
    ensures s0.actionStep <= s0.step < s0.actionStep + U32Modulus ==>
              r == t - s0.actionStep as real * env.fixedTimeStep
  {
    Wrap32(s0.step - s0.actionStep) as real * env.fixedTimeStep + (t - s0.step as real * env.fixedTimeStep)
  }

  /** The time as written and the corrected time agree exactly when the two states' action steps
      are the same modulo 2^32; in particular whenever both states belong to the same action. */
  lemma BetweenTimeAgreement(env: Env, s0: State, s1: State, t: real)
    requires env.fixedTimeStep > 0.0
    ensures BetweenTimeAsWritten(env, s0, s1, t) == BetweenTime(env, s0, t)
            <==> Wrap32(s0.step - s1.actionStep) == Wrap32(s0.step - s0.actionStep)
    ensures s1.actionStep == s0.actionStep ==> BetweenTimeAsWritten(env, s0, s1, t) == BetweenTime(env, s0, t)
  {
    var a, b := Wrap32(s0.step - s1.actionStep), Wrap32(s0.step - s0.actionStep);
    if a as real * env.fixedTimeStep == b as real * env.fixedTimeStep {
      assert (a as real - b as real) * env.fixedTimeStep == 0.0;
    }
  }

  /** How far t lies from the older state's time towards the newer one's. */
  function Progress(env: Env, s0: State, s1: State, t: real): real
    requires s0.step < s1.step && env.fixedTimeStep > 0.0
  {
    var t0 := s0.step as real * env.fixedTimeStep;
    var t1 := s1.step as real * env.fixedTimeStep;
    (t - t0) / (t1 - t0)
  }

  /** Interpolation between the older state s0 and the newer state s1 at time t. */
  function Interpolate(env: Env, s0: State, s1: State, t: real): Sample
    requires s0.step < s1.step && env.fixedTimeStep > 0.0
  {
    var u := Progress(env, s0, s1, t);
    Sample(Vec(Lerp(s0.position.x, s1.position.x, u), Lerp(s0.position.y, s1.position.y, u)),
           env.angleLerp(s0.direction, s1.direction, u), s0.actionState, BetweenTime(env, s0, t))
  }

  /** Player::GetStateAtTime on a state history. */
  function SampleAt(env: Env, states: seq<State>, t: real): Sample
    requires |states| > 0 && t >= 0.0 && env.fixedTimeStep > 0.0
  {
    match Bracketing(states, StateStep, QueryStep(env, t))
    case TooNew => Snapshot(env, states[0])
    case TooOld => Snapshot(env, states[|states| - 1])
    case Between(i) => Interpolate(env, states[i + 1], states[i], t)
  }

  /** Interpolation is exact at the two states' own times. */
  lemma InterpolateEnds(env: Env, s0: State, s1: State)
    requires s0.step < s1.step && env.fixedTimeStep > 0.0
    ensures Interpolate(env, s0, s1, s0.step as real * env.fixedTimeStep).position == s0.position
    ensures Interpolate(env, s0, s1, s1.step as real * env.fixedTimeStep).position == s1.position
  {
    ProgressAtEnds(env, s0, s1);
  }

  lemma ProgressAtEnds(env: Env, s0: State, s1: State)
    requires s0.step < s1.step && env.fixedTimeStep > 0.0
    ensures Progress(env, s0, s1, s0.step as real * env.fixedTimeStep) == 0.0
    ensures Progress(env, s0, s1, s1.step as real * env.fixedTimeStep) == 1.0
  {
    var t0 := s0.step as real * env.fixedTimeStep;
    var t1 := s1.step as real * env.fixedTimeStep;
    var w := t1 - t0;
    assert w > 0.0;
    assert w / w == 1.0;
  }

  // ---------------------------------------------------------------------------------------------
  // The mutable player

  class Player {
    const env: Env
    var entityType: EntityType
    var inputs: seq<Input>
    var states: seq<State>
    var offsetX: real
    var offsetY: real
    var hasChanged: bool

    function Data(): PlayerData
      reads this
    {
      PlayerData(entityType, inputs, states, Vec(offsetX, offsetY), hasChanged)
    }

    predicate Valid()
      reads this
    {
      WellFormed(Data())
    }

    constructor (env: Env, entityType: EntityType, data: NetData)
      ensures this.env == env && Valid()
      ensures Data() == NewPlayer(entityType, data)
    {
      this.env := env;
      this.entityType := entityType;
      inputs := [];
      states := [MakeState(0, data.startX, data.startY, Idle)];
      offsetX, offsetY := 0.0, 0.0;
      hasChanged := false;
    }

    /** Pop inputs older than `step` from the back. */
    method RemoveOlderInputs(step: nat)
      modifies this`inputs
      ensures inputs == TrimOlder(old(inputs), InputStep, step)
    {
      while |inputs| > 0
        invariant TrimOlder(inputs, InputStep, step) == TrimOlder(old(inputs), InputStep, step)
        decreases |inputs|
      {
        if inputs[|inputs| - 1].step >= step {
          break;
        }
        inputs := inputs[..|inputs| - 1];
      }
    }

    method SendPlayerInput(input: Input)
      requires Valid() && entityType != Cloned
      modifies this`inputs
      ensures Valid()
      ensures inputs == InsertAfterEqual(old(inputs), InputStep, input, Capacity)
    {
      var i, c := 0, |inputs|;
      while i < c
        invariant 0 <= i <= c
        invariant forall j :: 0 <= j < i ==> inputs[j].step >= input.step
      {
        if inputs[i].step < input.step {
          break;
        }
        i := i + 1;
      }
      FirstBelowUnique(inputs, InputStep, input.step, i);
      InsertAfterEqualKeepsOrder(inputs, InputStep, input, Capacity);
      if c == Capacity {
        if i == c {
          return;
        }
        inputs := inputs[..c - 1];
      }
      inputs := Insert(inputs, i, input);
    }

    method SendPlayerState(s: State)
      requires Valid() && entityType != SimulatedOnServer && ReceiveOk(env, Data(), s)
      modifies this
      ensures Valid()
      ensures Data() == Received(env, old(Data()), s)
    {
      ReceivedFacts(env, Data(), s);
      var i := FindState(s.step);
      if entityType == Cloned {
        PushState(i, s);
      } else {
        Reconcile(i, s);
      }
    }

    /** The predicting client's half of SendPlayerState: drop the states not newer than the received
        one, then snap to it, keep the rest, or resimulate after a misprediction. */
    method Reconcile(i: nat, s: State)
      requires Valid() && entityType == SimulatedLagless && ReceiveOk(env, Data(), s)
      requires i == FirstAtOrBelow(states, StateStep, s.step)
      modifies this
      ensures Data() == Received(env, old(Data()), s)
    {
      var client := states[i];
      states := states[..i];
      if i == 0 {
        states := states + [s];
        offsetX, offsetY := 0.0, 0.0;
      } else if s.position.Minus(client.position).SqrMagnitude() > Tolerance {
        Resimulate(s);
      }
    }

    /** The scan for the first state not newer than the step. */
    method FindState(step: nat) returns (i: nat)
      requires Valid()
      ensures i == FirstAtOrBelow(states, StateStep, step)
    {
      i := 0;
      var c := |states|;
      while i < c
        invariant 0 <= i <= c
        invariant forall j :: 0 <= j < i ==> states[j].step > step
      {
        if states[i].step <= step {
          break;
        }
        i := i + 1;
      }
      FirstAtOrBelowUnique(states, StateStep, step, i);
    }

    /** A clone's insertion at index i: when full, an insertion at the back is dropped and otherwise
        the oldest state is evicted first. */
    method PushState(i: nat, s: State)
      requires Valid() && i <= |states|
      modifies this`states
      ensures states == BoundedInsert(old(states), i, s, Capacity)
    {
      var c := |states|;
      if c == Capacity {
        if i == c {
          return;
        }
        states := states[..c - 1];
      }
      states := Insert(states, i, s);
    }

    /** The misprediction path of SendPlayerState. */
    method Resimulate(s: State)
      requires Valid() && UpdateOk(env, Restarted(Data(), s), states[0].step)
      modifies this
      ensures Data() == Resimulated(env, old(Data()), s)
    {
      var front := states[0];
      var x, y := front.position.x + offsetX, front.position.y + offsetY;
      states := [s];
      entityType := SimulatedOnServer;
      Update(front.step);
      entityType := SimulatedLagless;
      offsetX, offsetY := x - states[0].position.x, y - states[0].position.y;
    }

    method Update(target: nat)
      requires Valid() && UpdateOk(env, Data(), target)
      modifies this
      ensures Valid()
      ensures Data() == Updated(env, old(Data()), target)
    {
      if entityType == Cloned {
        return;
      }
      if entityType == SimulatedLagless {
        UpdateLagless(target);
      } else {
        UpdateOnServer(target);
      }
    }

    /** Update of the predicting client: push the prediction, then decay the smoothing offset. */
    method UpdateLagless(target: nat)
      requires Valid() && entityType == SimulatedLagless && UpdateOk(env, Data(), target)
      modifies this
      ensures Valid()
      ensures Data() == Updated(env, old(Data()), target)
    {
      UpdatedWellFormed(env, Data(), target);
      hasChanged := false;
      PredictAndPush(target);
      DecayOffset();
    }

    /** Update on the server: trim the inputs and run the simulation loop. */
    method UpdateOnServer(target: nat)
      requires Valid() && entityType == SimulatedOnServer && UpdateOk(env, Data(), target)
      modifies this`inputs, this`states, this`hasChanged
      ensures Valid()
      ensures Data() == Updated(env, old(Data()), target)
    {
      ghost var d := Data();
      hasChanged := false;
      Simulate(target);
      ServerUpdated(env, d, target, Data());
    }

    method DecayOffset()
      modifies this`offsetX, this`offsetY
      ensures Vec(offsetX, offsetY) == DecayedOffset(env, old(Vec(offsetX, offsetY)))
    {
      offsetX := offsetX * (1.0 - env.fixedTimeStep * OffsetDecay);
      offsetY := offsetY * (1.0 - env.fixedTimeStep * OffsetDecay);
    }

    /** The client's half of Update: push the predicted state when it is newer than the newest. */
    method PredictAndPush(target: nat)
      requires Valid() && !hasChanged
      requires |inputs| > 0 ==> LaglessReplayOk(env, states[0], inputs, FirstAtOrBelow(inputs, InputStep, states[0].step), target)
      modifies this`states, this`hasChanged
      ensures Pass(states, hasChanged) == LaglessPush(env, old(states), inputs, target)
    {
      if |inputs| > 0 {
        var prevStateStep := states[0].step;
        var newState := Predict(target);
        if newState.step > prevStateStep {
          if |states| == Capacity {
            states := states[..|states| - 1];
          }
          states := Insert(states, 0, newState);
          hasChanged := true;
        }
      }
    }

    /** The prediction: skip the inputs newer than the newest state, then apply inputs
        towards the newest until the target step. */
    method Predict(target: nat) returns (newState: State)
      requires Valid() && |inputs| > 0
      requires LaglessReplayOk(env, states[0], inputs, FirstAtOrBelow(inputs, InputStep, states[0].step), target)
      ensures newState == LaglessReplay(env, states[0], inputs, FirstAtOrBelow(inputs, InputStep, states[0].step), target)
      ensures newState.step >= states[0].step
    {
      newState := states[0];
      var prevStateStep := newState.step;
      var i, c := 0, |inputs|;
      while i < c && inputs[i].step > prevStateStep
        invariant 0 <= i <= c
        invariant forall j :: 0 <= j < i ==> inputs[j].step > prevStateStep
      {
        i := i + 1;
      }
      FirstAtOrBelowUnique(inputs, InputStep, prevStateStep, i);
      ghost var first := i;
      while i >= 0 && newState.step < target
        invariant -1 <= i <= c
        invariant LaglessReplayOk(env, newState, inputs, i, target)
        invariant LaglessReplay(env, newState, inputs, i, target) == LaglessReplay(env, states[0], inputs, first, target)
        decreases i + 1
      {
        newState := Step(env, newState, inputs[i]);
        i := i - 1;
      }
    }

    /** The server's half of Update: drop inputs older than the newest state, then apply the rest
        oldest first while they are not past the target, pushing each newer result. */
    method Simulate(target: nat)
      requires 0 < |states| <= Capacity && |inputs| <= Capacity && NewestFirst(inputs, InputStep)
      requires var p := TrimOlder(inputs, InputStep, states[0].step); ServerReplayOk(env, states[0], p, |p| - 1, target)
      modifies this`inputs, this`states, this`hasChanged
      ensures inputs == TrimOlder(old(inputs), InputStep, old(states[0].step))
      ensures Pass(states, hasChanged)
              == ServerRun(env, old(states), old(states[0]), old(states[0].step), old(hasChanged), inputs, |inputs| - 1, target)
    {
      RemoveOlderInputs(states[0].step);
      TrimOlderFacts(old(inputs), InputStep, old(states[0].step));
      ApplyInputs(target);
    }

    /** The server loop over the remaining inputs, oldest first. */
    method ApplyInputs(target: nat)
      requires 0 < |states| <= Capacity && |inputs| <= Capacity
      requires ServerReplayOk(env, states[0], inputs, |inputs| - 1, target)
      modifies this`states, this`hasChanged
      ensures Pass(states, hasChanged)
              == ServerRun(env, old(states), old(states[0]), old(states[0].step), old(hasChanged), inputs, |inputs| - 1, target)
    {
      var newState := states[0];
      var prevStateStep := newState.step;
      var i := |inputs| - 1;
      while i >= 0 && inputs[i].step <= target
        invariant -1 <= i < |inputs|
        invariant 0 < |states| <= Capacity && newState == states[0] && prevStateStep == newState.step
        invariant ServerReplayOk(env, newState, inputs, i, target)
        invariant ServerRun(env, states, newState, prevStateStep, hasChanged, inputs, i, target)
               == ServerRun(env, old(states), old(states[0]), old(states[0].step), old(hasChanged), inputs, |inputs| - 1, target)
        decreases i + 1
      {
        ServerRunStep(env, states, hasChanged, inputs, i, target);
        newState := Step(env, newState, inputs[i]);
        i := i - 1;
        if newState.step > prevStateStep {
          if |states| == Capacity {
            states := states[..|states| - 1];
          }
          states := Insert(states, 0, newState);
          hasChanged := true;
          prevStateStep := newState.step;
        }
      }
    }

    method GetCurrentPosition() returns (x: real, y: real)
      requires Valid()
      ensures Vec(x, y) == CurrentPosition(Data())
      ensures entityType != SimulatedLagless ==> Vec(x, y) == states[0].position
      ensures entityType == SimulatedLagless ==> x == states[0].position.x + offsetX && y == states[0].position.y + offsetY
    {
      var s := states[0];
      if entityType == SimulatedLagless {
        x, y := s.position.x + offsetX, s.position.y + offsetY;
      } else {
        x, y := s.position.x, s.position.y;
      }
    }

    method GetCurrentDirection() returns (dx: real, dy: real)
      requires Valid()
      ensures Vec(dx, dy) == states[0].direction
    {
      dx, dy := states[0].direction.x, states[0].direction.y;
    }

    method GetCurrentState() returns (action: ActionState, time: real)
      requires Valid()
      ensures action == states[0].actionState && time == ActionTime(env, states[0])
      ensures states[0].actionStep <= states[0].step < states[0].actionStep + U32Modulus ==>
                time == (states[0].step - states[0].actionStep) as real * env.fixedTimeStep
    {
      var s := states[0];
      assert ActionTime(env, s) == Wrap32(s.step - s.actionStep) as real * env.fixedTimeStep;
      action := s.actionState;
      time := Wrap32(s.step - s.actionStep) as real * env.fixedTimeStep;
    }

    /** Entity::GetCurrentAction: the time is written only when asked for (a non-null pointer). */
    method GetCurrentAction(wantTime: bool) returns (action: ActionState, time: Option<real>)
      requires Valid()
      ensures action == states[0].actionState
      ensures time.Some? <==> wantTime
      ensures wantTime ==> time.value == ActionTime(env, states[0])
    {
      var s := states[0];
      assert ActionTime(env, s) == Wrap32(s.step - s.actionStep) as real * env.fixedTimeStep;
      time := None;
      if wantTime {
        time := Some(Wrap32(s.step - s.actionStep) as real * env.fixedTimeStep);
      }
      action := s.actionState;
    }

    method GetStateAtTime(t: real) returns (r: Sample)
      requires Valid() && t >= 0.0 && env.fixedTimeStep > 0.0
      ensures r == SampleAt(env, states, t)
      ensures (forall j :: 0 <= j < |states| ==> states[j].step < QueryStep(env, t)) ==> r == Snapshot(env, states[0])
      ensures states[|states| - 1].step >= QueryStep(env, t) ==> r == Snapshot(env, states[|states| - 1])
    {
      var last := |states| - 1;
      var i := last;
      var s := QueryStep(env, t);
      while i >= 0 && states[i].step < s
        invariant -1 <= i <= last
        invariant forall j :: i < j <= last ==> states[j].step < s
        decreases i + 1
      {
        i := i - 1;
      }
      ScanBackUnique(states, StateStep, s, last, i);
      if i == -1 {
        r := Snapshot(env, states[0]);
      } else if i == last {
        r := Snapshot(env, states[last]);
      } else {
        r := Interpolate(env, states[i + 1], states[i], t);
      }
    }

    method FillPlayerState() returns (m: StateMessage)
      requires Valid()
      ensures StateOf(m) == states[0]
    {
      var s := states[0];
      m := StateMessage(s.step, s.position.x, s.position.y, s.direction.x, s.direction.y, s.actionState, s.actionStep);
    }
  }
}
