# TreasureHunters core in Dafny

This project models the simulation and networking core of TreasureHunters, a small client/server
game. Players and enemies are advanced one fixed simulation step at a time.

- The server simulates every player from the inputs the clients send.
- The owning client predicts its own player ahead of the server ("lagless"). When an authoritative
  state arrives it reconciles: it snaps to the state, accepts it, or resimulates after a
  misprediction.
- The other clients only show the states they receive ("cloned").

Every entity keeps two bounded, newest-first histories: its inputs and its simulated states.

Messages travel as a four-character type tag followed by their fields. A reading or writing
`NetStream` transfers the fields one by one, and every per-field result is discarded.

Two small utilities complete the core: a pausable time source and a weak pointer that is
registered with its target.

The model is split into modules that follow the program's files.

| module | file | what it models |
|---|---|---|
| `Base` | Base.dfy | fixed-width integers (`byte`, `u16`, `u32`) and uint32 wrap-around |
| `Kinematics` | Kinematics.dfy | 2D vectors over the reals; the environment (fixed time step, normalisation, angle interpolation) |
| `History` | History.dfy | the buffer algorithms of the entity template: ordered bounded insertion, trimming, the scans |
| `EntityStates` | EntityStates.dfy | `EntityState`, `NetEntityState` and the conversion between them |
| `Players` | Players.dfy | `Player.cc`: a specification over values (`PlayerData`), then the `Player` class proved against it |
| `Enemies` | Enemy.dfy | `Enemy.cc`: waypoint stepping, the server loop, received states, queries |
| `Levels` | Level.dfy | `Level.cc`: Init for server and client, DeletePlayer, Update |
| `Wire` | Wire.dfy | field images, what a run of unchecked reads yields, and the byte buffer |
| `NetStreams` | NetStream.dfy | `NetStream.h`: field transfer, compensated timestamps, arrays |
| `Serialization` | Serializable.dfy | `Serializable.h`: tags, Serialize, Deserialize, the base class |
| `Messages` | Messages.dfy | the `SerializeImpl` of every message, with round trips and truncated payloads |
| `Time` | TimeSource.dfy | `TimeSource.cc` |
| `Weak` | WeakPtr.dfy | `WeakPtr.h`, with the target's list of references as a ghost set |

State that the source changes in place is held in classes whose methods are proved against
specification functions. The properties are then proved about those functions as lemmas.

- `Player.Update` ensures `Data() == Updated(env, old(Data()), target)`, and
  `UpdatedFacts` states what `Updated` does.
- Each message's `SerializeImpl` ensures that its fields and its stream end as
  `Wire.TransferAll` says. The round-trip and truncation lemmas are stated over `ReadAll`.

Details of the code that the model follows:

- Enum fields (the JoinRoom and StartGame flags) travel in four bytes, because `sizeof` of an
  enum is four.
- `Level::Update(float)` hands its float to `Player::Update(uint32_t)`, which truncates it
  (`Levels.UpdateStep`).
- `Level::Init` counts players in a `uint8_t`, so at most 255 players are created
  (`Levels.InitCount`).
- `src/Network/Messages/StartGame.cc` registers `Game::PlayerState` under the tag `'PLST'`, not
  StartGame. StartGame therefore has no tag of its own: only its `SerializeImpl` is modelled.
- `src/Game/Entity.h` is a generic draft of `Player.cc` that does not compile. Its buffer
  operations are modelled once, in `History`, and several rows cite its lines for them. Its
  `GetCurrentAction`, which has no counterpart in `Player.cc`, is modelled on the `Player`
  class. Everywhere else `Player.cc` is followed where the two differ.

The following observations are proved about the model:

- The field results are ignored, so a truncated payload can mis-assign a byte. A PlayerInputs
  payload cut one to three bytes after the step keeps its x and y, but takes `attack` from the
  first stray byte (`Messages.PlayerInputsCutShort`). CreateRoom does the same with its count
  (`Messages.CreateRoomCutShort`).
- EnemyState and NetEntityState share the tag `'ENST'`. An encoded NetEntityState passes
  EnemyState's tag check and is read as an enemy state, with 13 of its bytes consumed
  (`Serialization.EnemyStateAcceptsNetEntityState`, `Messages.EnemyStateReadsNetEntityState`).
- Under the source's own asserts, every input the server loop consumes yields a state newer than
  the front. The `if (newState.step > prevStateStep)` test therefore never fails in server mode
  (`Players.ServerRunPushes`).

## Model

| member | source | states |
|---|---|---|
| Base.Wrap32 | src/Game/Player.cc:113 | the uint32 result of an unsigned expression: the value itself when in range, otherwise congruent to it modulo 2^32 |
| History.FirstBelow | src/Game/Player.cc:140-145 | the insertion scan stops at the first entry older than the newcomer; every entry before it is at least as new |
| History.FirstAtOrBelow | src/Game/Player.cc:163-168 | the state scan stops at the first entry not newer than the received one; every entry before it is newer |
| History.FirstBelowUnique | src/Game/Player.cc:140-145 | any index meeting the scan's exit condition is the index the scan returns |
| History.FirstAtOrBelowUnique | src/Game/Player.cc:163-168 | the same for the `<=` scan |
| History.ScanBack | src/Game/Player.cc:336-337 | the backward scan ends at -1 or at the newest-most index from which every later entry is older than the query step |
| History.ScanBackUnique | src/Game/Player.cc:332-337 | any index meeting the backward scan's exit condition is the one it finds |
| History.Bracketing | src/Game/Player.cc:332-363 | "too new" iff every state is older than the query step; "too old" iff the oldest is not older; otherwise `states[i+1].step < s <= states[i].step` |
| History.Insert | src/Game/Player.cc:155 | Array::Insert: the newcomer at i, the entries before it in place, the entries after it shifted back by one |
| History.BoundedInsert | src/Game/Player.cc:147-155 | below capacity the length grows by one; at capacity it stays at capacity; the newcomer lands at i unless it was dropped |
| History.InsertContents | src/Game/Player.cc:155 | insertion adds exactly the newcomer to the multiset of entries |
| History.BoundedInsertContents | src/Game/Player.cc:147-155 | never over capacity; below capacity nothing is lost; when full, a newcomer placed at the end is dropped (buffer unchanged), otherwise exactly the oldest entry is evicted |
| History.InsertKeepsOrder | src/Game/Entity.h:112 | inserting at a place between newer and older entries keeps the history newest-first |
| History.PrefixKeepsOrder | src/Game/Player.cc:185 | a prefix of a newest-first history is newest-first |
| History.BoundedInsertKeepsOrder | src/Game/Entity.h:104-112 | popping the back, then inserting in order, keeps the history newest-first |
| History.BoundedInsertShape | src/Game/Player.cc:152-155 | in a kept insertion, the entries before the place stay and those after it move one place back |
| History.InsertAfterEqualKeepsOrder | src/Game/Entity.h:93-113 | InsertInput keeps the inputs newest-first |
| History.InsertAfterEqual | src/Game/Entity.h:93-113 | InsertInput: the buffer grows by one below capacity and stays at capacity when full; placement is proved by InsertAfterEqualPlacement |
| History.InsertAfterEqualPlacement | src/Game/Entity.h:93-113 | InsertInput drops the newcomer when full and no kept entry is older; otherwise it lands after every entry at least as new and before every older one, and exactly the oldest entry is evicted when full |
| History.InsertBeforeEqualKeepsOrder | src/Game/Entity.h:117-139 | a clone's InsertState keeps the states newest-first |
| History.InsertBeforeEqual | src/Game/Entity.h:117-139 | a clone's InsertState: the buffer grows by one below capacity and stays at capacity when full; placement is proved by InsertBeforeEqualPlacement |
| History.InsertBeforeEqualPlacement | src/Game/Entity.h:121-139 | a clone's InsertState drops the newcomer when full and every kept state is newer; otherwise it lands before every state at most as new, and exactly the oldest state is evicted when full |
| History.TrimOlder | src/Game/Entity.h:80-89 | RemoveOlderInputs removes only a suffix, every removed entry is older than the step, and the new back entry is not |
| History.TrimOlderFacts | src/Game/Entity.h:80-89 | on a sorted buffer the result is sorted, every remaining entry is at least as new as the step, and an entry remains iff it is at least as new |
| EntityStates.MakeState | src/Game/EntityState.h:22-28 | the four-argument constructor: the given step and position, facing up, with the action beginning at that step |
| EntityStates.FromNet | src/Game/EntityState.h:63-70 | the constructor from a NetEntityState takes the step and action step as they are and reads the floats, half floats and action code through the decoders; its wire partner is Messages.ReceivedEntityState |
| Players.Step | src/Game/Player.cc:60-133 | the new step is input.step + 1. Idle or Moving with attack starts an attack at the next step. Idle with movement starts Moving; Idle without it changes only the step. Moving without movement goes Idle; Moving with it keeps its action step. An attack keeps its direction and ends, going Idle, exactly when the uint32 attack step reaches 30 |
| Players.StickDirection | src/Game/Player.cc:64-65 | the stick vector normalised by the environment, the `v` of Step (used through Step) |
| Players.Drive | src/Game/Player.cc:86 | a moving step's displacement: along the stick, by the squared magnitude capped at 1, times speed 10 and the fixed step (used through Step) |
| Players.AttackStep | src/Game/Player.cc:113 | the uint32 `input.step + 1 - actionStep`, which is the plain difference when it does not wrap |
| Players.StartAttack | src/Game/Player.cc:71-80 | an attack begins: Attacking from the next step, the step itself unchanged, and the old direction kept when the stick is not moved |
| Players.AttackEndsAfterThirtySteps | src/Game/Player.cc:112-127 | an attack begun at step a stays Attacking until the input of step a + 29 is applied, and is Idle from then on |
| Players.NewPlayer | src/Game/Player.cc:33-42 | a new player has one idle state at step 0 at the start position, no inputs, zero offset and hasChanged false, and is well formed |
| Players.MessageOf | src/Game/Player.cc:383-394 | FillPlayerState writes a message that reads back as exactly the newest state |
| Players.MessageRoundTrip | src/Game/Player.cc:23-29 | the state constructor and FillPlayerState are inverse on messages |
| Players.LaglessReplay | src/Game/Player.cc:251-252 | the prediction never goes back in steps, and advances when there is an input to apply and the target is ahead |
| Players.LaglessPush | src/Game/Player.cc:243-264 | the client pushes its prediction: the history stays non-empty and bounded, it changed iff the newest step grew, and an unchanged pass keeps the states |
| Players.LaglessPushFacts | src/Game/Player.cc:243-263 | the client pushes at most one predicted state, at the front, exactly when it is newer than the newest; the pushed history is the old one shifted back by one; otherwise the states are unchanged; the history stays sorted and bounded |
| Players.ServerRun | src/Game/Player.cc:269-287 | the server loop keeps the history non-empty and bounded, and once hasChanged is set it stays set |
| Players.Consumed | src/Game/Player.cc:269-272 | the loop consumes at most the pending inputs, and a consumed input is not past the target |
| Players.ConsumedExactly | src/Game/Player.cc:269-272 | on sorted inputs, exactly the inputs not past the target are consumed |
| Players.ServerRunStep | src/Game/Player.cc:272-282 | one consumed input yields a state one step after it, newer than the front, which is pushed at the front |
| Players.ServerRunPushes | src/Game/Player.cc:265-288 | one state is pushed per consumed input; hasChanged is set iff an input was consumed; behind the pushed states the old history is kept, losing its oldest entries on overflow |
| Players.ServerRunCount | src/Game/Player.cc:269-287 | hasChanged is set iff an input was consumed, and the history grows by one per consumed input up to capacity |
| Players.ServerRunFront | src/Game/Player.cc:265-288 | with nothing consumed the history is untouched; otherwise the newest state is one step after the last consumed input and newer than the old front |
| Players.ServerRunOrder | src/Game/Entity.h:224-247 | the pushed states are strictly newer one after another, and the history stays newest-first |
| Players.ServerRunStrict | src/Game/Player.cc:269-287 | each consumed input pushes a state strictly newer than the one behind it, whatever order the old history had |
| Players.UpdatedWellFormed | src/Game/Player.cc:232-295 | Update keeps both buffers sorted, bounded and the state buffer non-empty |
| Players.ServerUpdated | src/Game/Player.cc:265-288 | the trimmed inputs plus the server loop over them make up the whole of the server's Update |
| Players.Updated | src/Game/Player.cc:232-295 | Update keeps the entity type and a non-empty bounded history, and only the server touches its inputs; the rest is in UpdatedFacts |
| Players.UpdatedFacts | src/Game/Player.cc:232-295 | a clone is untouched. Otherwise hasChanged is set iff a newer state was pushed and the newest step never decreases. The client keeps its inputs, pushes at most its one prediction and decays its offset. The server trims its inputs and keeps its offset |
| Players.Restarted | src/Game/Player.cc:216-219 | the history restarted from the received state alone is well formed |
| Players.Resimulated | src/Game/Player.cc:205-227 | the resimulated player is a predicting client again, shown at the position it was shown at before |
| Players.Received | src/Game/Player.cc:158-230 | SendPlayerState keeps the entity type and a non-empty bounded history; the branches are in ReceivedFacts |
| Players.CurrentPosition | src/Game/Player.cc:297-311 | the position shown: the newest position, displaced by the smoothing offset only on the predicting client; ReceivedFacts and ResimulatedFacts prove it does not jump |
| Players.ReceivedFacts | src/Game/Player.cc:158-230 | a clone inserts in order. The client drops every state not newer than the received one. With none newer it snaps to the received state and zeroes the offset. With some newer and no misprediction, only the newer states remain. On a misprediction the inputs are trimmed to the received step. In the last two cases the position shown does not change |
| Players.ResimulatedFacts | src/Game/Player.cc:205-227 | the resimulation leaves a lagless player whose newest state is not older than the received one, whose inputs are those not older than it, and which is shown exactly where it was |
| Players.BetweenTime | src/Game/Player.cc:379 | corrected: the interpolated action time is the time since the reported older state's action began |
| Players.BetweenTimeWraps | src/Game/Player.cc:379 | as written, when the newer state has just begun a new action, the reported time wraps to 2^32 steps |
| Players.BetweenTimeAsWritten | src/Game/Player.cc:379 | the action time as written: within the uint32 range it is the time since the NEWER state's action began |
| Players.BetweenTimeAgreement | src/Game/Player.cc:379 | the time as written equals the corrected one iff both states' action steps agree modulo 2^32, so always when both belong to the same action |
| Players.ActionTime | src/Game/Player.cc:348 | the uint32 running time of a state's action: (step - actionStep)·dt when no wrap occurs |
| Players.Snapshot | src/Game/Player.cc:339-360 | the sample of a single state: its position, direction, action and ActionTime |
| Players.Interpolate | src/Game/Player.cc:363-379 | the sample between two states: positions by Lerp, directions by the angle interpolation, the older state's action and the corrected BetweenTime; exact at both ends (InterpolateEnds) |
| Players.SampleAt | src/Game/Player.cc:329-381 | GetStateAtTime on a history: Snapshot of the newest state when too new, of the oldest when too old, otherwise Interpolate of the bracketing pair (History.Bracketing) |
| Players.InterpolateEnds | src/Game/Player.cc:366-375 | the interpolated position is exact at the two bracketing states' times |
| Players.ProgressAtEnds | src/Game/Player.cc:366-368 | the interpolation parameter is 0 at the older state's time and 1 at the newer one's |
| Players.Player.constructor | src/Game/Player.cc:33-42 | the object holds NewPlayer's data |
| Players.Player.RemoveOlderInputs | src/Game/Player.cc:47-57 | the pop-back loop leaves TrimOlder of the old inputs |
| Players.Player.SendPlayerInput | src/Game/Player.cc:135-156 | requires a non-clone; the inputs become the ordered bounded insertion of the newcomer after equal steps, and stay well formed |
| Players.Player.SendPlayerState | src/Game/Player.cc:158-230 | requires a non-server player; the player becomes Received of its old data |
| Players.Player.Reconcile | src/Game/Player.cc:182-229 | the lagless branch: dropping older states, then snapping, keeping or resimulating, as Received says |
| Players.Player.FindState | src/Game/Player.cc:163-168 | the scan returns FirstAtOrBelow |
| Players.Player.PushState | src/Game/Player.cc:170-181 | a clone's insertion is BoundedInsert at the found index |
| Players.Player.Resimulate | src/Game/Player.cc:205-227 | the misprediction path: restart from the received state, run the server Update to the previous newest step, restore the lagless type and refresh the offset |
| Players.Player.Update | src/Game/Player.cc:232-295 | the player becomes Updated of its old data and stays well formed |
| Players.Player.UpdateLagless | src/Game/Player.cc:243-294 | the client branch, followed by the offset decay |
| Players.Player.UpdateOnServer | src/Game/Player.cc:265-288 | the server branch |
| Players.Player.DecayOffset | src/Game/Player.cc:290-294 | both offsets are scaled by 1 - 16·kFixedTimeStep |
| Players.DecayedOffset | src/Game/Player.cc:292-293 | one offset scaled by 1 - 16·kFixedTimeStep, the value DecayOffset stores |
| Players.Player.PredictAndPush | src/Game/Player.cc:245-263 | the client's push, as LaglessPush |
| Players.Player.Predict | src/Game/Player.cc:245-252 | both loops of the prediction compute LaglessReplay from the first input not newer than the newest state |
| Players.Player.Simulate | src/Game/Player.cc:267-287 | the inputs are trimmed to the newest state's step, then the loop runs over them |
| Players.Player.ApplyInputs | src/Game/Player.cc:269-287 | the server loop over the inputs, oldest first, computes ServerRun |
| Players.Player.GetCurrentPosition | src/Game/Player.cc:297-311 | only a lagless player adds its offset to the newest position |
| Players.Player.GetCurrentDirection | src/Game/Player.cc:313-319 | the newest state's direction |
| Players.Player.GetCurrentState | src/Game/Player.cc:321-327 | the newest state's action; its uint32 running time, which is (step - actionStep)·dt when no wrap occurs |
| Players.Player.GetCurrentAction | src/Game/Entity.h:295-303 | the newest action; the time is produced iff it is asked for |
| Players.Player.GetStateAtTime | src/Game/Player.cc:329-381 | the sample is SampleAt: the newest state when all are older than the query step, the oldest when it is not older, otherwise the interpolation of the bracketing pair, whose action time is the corrected BetweenTime rather than line 379's expression (see Findings) |
| Players.Player.FillPlayerState | src/Game/Player.cc:383-394 | the message reads back as the newest state |
| Enemies.Capacity | src/Game/Enemy.cc:20 | the history capacity is positive: 32 on the server, 10 for a clone |
| Enemies.Stepped | src/Game/Enemy.cc:34-58 | the step grows by one; the waypoint index moves on cyclically exactly when the waypoint is within squared distance 1, and stays in range |
| Enemies.Advanced | src/Game/Enemy.cc:89-99 | the server loop keeps the history non-empty, bounded and the waypoint index in range |
| Enemies.Missing | src/Game/Enemy.cc:91 | the number of turns of the loop; AdvancedFront proves that this many pushes take the front to the target, or none when it is already there |
| Enemies.AdvancedStep | src/Game/Enemy.cc:91-99 | one loop turn pushes a state one step newer than the front, shifting the rest back |
| Enemies.AdvancedFront | src/Game/Enemy.cc:89-99 | the newest step becomes max(old newest step, target); one state is pushed per step advanced, within capacity; nothing changes when already at the target |
| Enemies.AdvancedKeepsHistory | src/Game/Enemy.cc:95-98 | behind the pushed states the old history is kept, losing its oldest entries on overflow |
| Enemies.PushedAt | src/Game/Enemy.cc:95-98 | after a push at the front, the entry at j > 0 is the one that was at j - 1 |
| Enemies.AdvancedConsecutive | src/Game/Enemy.cc:91-99 | consecutive pushed states are exactly one step apart, and the oldest pushed one follows the old front |
| Enemies.AdvancedKeepsOrder | src/Game/Enemy.cc:91-99 | Update keeps the history newest-first |
| Enemies.InterpolateEnds | src/Game/Enemy.cc:134-142 | the interpolated position is exact at the two bracketing states' times |
| Enemies.Interpolate | src/Game/Enemy.cc:134-142 | the position between two states, by Lerp of the coordinates; exact at both ends (InterpolateEnds) |
| Enemies.Progress | src/Game/Enemy.cc:137-139 | the fraction `u` from the older state's time to the newer one's; the interpolation built on it is exact at both ends (InterpolateEnds) |
| Enemies.PositionAt | src/Game/Enemy.cc:110-145 | GetPositionAtTime on a history: the newest position when too new, the oldest when too old, otherwise Interpolate of the bracketing pair |
| Enemies.Enemy.constructor | src/Game/Enemy.cc:18-29 | one state at step 0 at waypoint 0; three waypoints; index 0; capacity 32 on the server and 10 for a clone |
| Enemies.Enemy.Step | src/Game/Enemy.cc:34-58 | the by-reference step and the waypoint field change as Stepped says |
| Enemies.Enemy.SendEnemyState | src/Game/Enemy.cc:60-81 | requires a clone; the states become the ordered bounded insertion after equal steps, and stay sorted |
| Enemies.Enemy.Update | src/Game/Enemy.cc:83-100 | a clone is untouched; on the server, the states and the waypoint index become Advanced of the old ones |
| Enemies.Enemy.GetCurrentPosition | src/Game/Enemy.cc:102-108 | the newest state's position |
| Enemies.Enemy.GetPositionAtTime | src/Game/Enemy.cc:110-145 | PositionAt: the newest position when all states are older than the query step, the oldest when it is not older, otherwise the interpolation of the bracketing pair |
| Levels.ClientType | src/Game/Level.cc:38 | exactly the client's own index is lagless; no client player is server-simulated |
| Levels.InitCount | src/Game/Level.cc:23 | the uint8 count: below 256, at most the room size, and the room size when below 256 |
| Levels.UpdateStep | src/Game/Level.cc:49-53 | the float time converted to uint32 is its floor |
| Levels.Level.constructor | src/Game/Level.cc:13-15 | a level starts with no players |
| Levels.Level.InitServer | src/Game/Level.cc:20-29 | appends, without clearing, one new server-simulated player per room entry in order |
| Levels.Level.InitClient | src/Game/Level.cc:31-40 | appends one new player per room entry in order: lagless at the client's index, cloned elsewhere |
| Levels.Level.DeletePlayer | src/Game/Level.cc:42-46 | removes exactly the player at the index; later ones shift down and the rest keep their order |
| Levels.Level.Update | src/Game/Level.cc:48-54 | every player becomes Updated to the same step, in index order |
| Wire.Size | src/Network/NetStream.h:33 | a field's size in bytes is that of its C++ type, from 1 to 4 |
| Wire.Bytes32 | src/Network/NetStream.h:44 | a uint32 is written as four bytes |
| Wire.Bytes16 | src/Game/EntityState.h:43-44 | a half float travels as the two bytes of its 16-bit pattern |
| Wire.Word32Bytes32 | src/Network/NetStream.h:36 | reading back the four bytes of a uint32 gives it again |
| Wire.Bytes32Word32 | src/Network/NetStream.h:36 | any four bytes are the image of the uint32 they read as |
| Wire.Encode | src/Network/NetStream.h:44 | a field's image has exactly its size |
| Wire.EncodeAll | src/Network/NetStream.h:42-46 | what a writer's run of fields emits: their images one after the other; ReadAllEncoded reads it back |
| Wire.Decode | src/Network/NetStream.h:36 | a read field keeps the kind of the field it is read into |
| Wire.DecodeEncode | src/Network/NetStream.h:29-47 | a field read from its own image is the field |
| Wire.ReadOne | src/Network/NetStream.h:31-41 | a read takes the field's size when that many bytes remain, and otherwise consumes nothing and keeps the value |
| Wire.ReadAll | src/Network/NetStream.h:31-41 | what a reader's run of unchecked field reads ends with; its shape, round trip and truncation cases are ReadAllShape, ReadAllEncoded and ReadAllTruncated |
| Wire.Consumed | src/Network/NetStream.h:34-37 | how many bytes that run of reads takes; ReadAllEncoded shows it is exactly the encoded fields |
| Wire.ReadAllSkip | src/Network/NetStream.h:39-40 | a field too wide for the bytes left keeps its value, and the next field reads the same bytes |
| Wire.ReadAllShape | src/Network/NetStream.h:29-47 | unchecked reads never fail: every field keeps its kind, and no more bytes are used than are present |
| Wire.ReadAllFront | src/Network/NetStream.h:29-47 | a field list read from one field's image followed by more: the field, then the rest read from the more |
| Wire.ReadAllEncoded | src/Network/Messages/PlayerInputs.h:12-18 | reading an encoded field list followed by anything gives the fields and consumes exactly their images |
| Wire.ReadAllEmpty | src/Network/NetStream.h:39-40 | with no bytes, every field keeps its value |
| Wire.ReadAllTruncated | src/Network/Messages/PlayerInputs.h:14-17 | a payload cut after k fields, with fewer bytes left than any later field needs: those k are read and the rest keep their values |
| Wire.ReadAllTail | src/Network/NetStream.h:39-40 | fewer bytes than any field needs: nothing is read |
| Wire.Transfer | src/Network/NetStream.h:29-47 | one Serialize keeps the stream consistent and the field's kind |
| Wire.TransferAll | src/Network/Messages/PlayerInputs.h:12-18 | a run of transfers keeps the stream consistent |
| Wire.TransferAllFacts | src/Network/NetStream.h:29-47 | a writer keeps its fields and appends their images; a reader keeps the bytes, ends with ReadAll of the unread bytes and advances by Consumed |
| Wire.TransferAllFront | src/Network/NetStream.h:29-47 | a run of transfers is its first transfer followed by the rest |
| Wire.TransferAllAppend | src/Game/EntityState.h:37-47 | transferring two field lists in turn is transferring their concatenation |
| Wire.TransferOne | src/Network/NetStream.h:29-47 | a single transfer is a run of one |
| Wire.TransferTwo | src/Network/Messages/CreateRoom.h:14-15 | two transfers in turn are the run over the pair |
| Wire.TransferThree | src/Network/Messages/StartGame.h:14-16 | three transfers in turn are the run over the three |
| Wire.TransferFour | src/Network/Messages/PlayerInputs.h:14-17 | four transfers in turn are the run over the four |
| Wire.BitStream.constructor | src/Network/NetStream.h:14 | a stream over the given bytes with its cursor at the start |
| Wire.BitStream.Reset | src/Network/NetStream.h:23 | a writer's stream is emptied |
| Wire.BitStream.Rewind | src/Network/NetStream.h:21 | a reader's cursor goes back to the start |
| Wire.BitStream.RemainingBytes | src/Network/NetStream.h:53 | the number of unread bytes |
| Wire.BitStream.Write | src/Network/NetStream.h:44 | `<<` appends the bytes |
| Wire.BitStream.Read | src/Network/NetStream.h:36 | `>>` takes the next n bytes and moves the cursor past them |
| NetStreams.Millis | src/Network/NetStream.h:66 | `timestamp * 1000.0f` converted to uint32: the whole milliseconds, for a value in range |
| NetStreams.Stamped | src/Network/NetStream.h:66-68 | the writer stores the milliseconds plus its peer's clock differential in uint32; inverted by Unstamped (UnstampedStamped) |
| NetStreams.Unstamped | src/Network/NetStream.h:56-58 | the reader subtracts its own peer's differential in uint32 |
| NetStreams.UnstampedStamped | src/Network/NetStream.h:56-68 | the stored value minus the reader's differential is the milliseconds shifted by the difference of the differentials modulo 2^32, so exactly them when the two agree |
| NetStreams.WrapShift | src/Network/NetStream.h:57 | a uint32 value is unchanged by multiples of 2^32 |
| NetStreams.TimestampTransfer | src/Network/NetStream.h:49-70 | a timestamp transfer keeps the stream consistent |
| NetStreams.TimestampRoundTrip | src/Network/NetStream.h:49-70 | a written timestamp read back gives the whole milliseconds shifted by the differentials' difference, unshifted when they agree, and consumes the four bytes |
| NetStreams.ArrayTransfer | src/Network/Messages/JoinRoom.h:22-26 | an array transfer keeps the stream consistent |
| NetStreams.ArrayRoundTrip | src/Network/Messages/JoinRoom.h:19-28 | an array written by a format that decodes its own output is read back, and the read ends at the end of the written bytes |
| NetStreams.NetStream.constructor | src/Network/NetStream.h:16-24 | a reader rewinds its stream and a writer resets it |
| NetStreams.NetStream.Serialize | src/Network/NetStream.h:29-47 | the reader decodes and returns true iff enough bytes remain, otherwise it keeps the value and the cursor; the writer appends and returns true |
| NetStreams.NetStream.SerializeTimestamp | src/Network/NetStream.h:49-70 | the writer appends the compensated milliseconds; the reader succeeds iff four bytes remain, otherwise it consumes nothing |
| NetStreams.NetStream.SerializeArray | src/Network/Messages/JoinRoom.h:22-26 | the array travels as the array format says |
| Serialization.TaggedParts | src/Network/Serializable.h:11-17 | a serialized message starts with its tag and continues with exactly its payload |
| Serialization.FourCC | src/Network/Serializable.h:15 | the tag of a four-character literal, whose little-endian image is the characters last one first |
| Serialization.Tagged | src/Network/Serializable.h:11-17 | what Serialize writes: the tag as a uint32, then the payload; TaggedParts and TaggedRoundTrip take it apart |
| Serialization.TaggedRoundTrip | src/Network/Serializable.h:11-26 | a message written and read back passes the tag check, and its fields come back whatever the reading object held |
| Serialization.EnemyStateAcceptsNetEntityState | src/Game/EntityState.cc:5 | a NetEntityState passes EnemyState's tag check, because both register 'ENST' |
| Serialization.TagsDistinct | src/Network/Serializable.cc:5 | the other registered tags are pairwise different |
| Serialization.Serializable.SerializeImpl | src/Network/Serializable.h:34-35 | the base payload transfers nothing |
| Serialization.Serializable.Serialize | src/Network/Serializable.h:11-17 | the base message's encoding is its tag alone |
| Serialization.Serializable.Deserialize | src/Network/Serializable.h:19-26 | requires the class's tag; reads the four tag bytes and leaves the buffer as it was |
| Messages.PlayerInputs.constructor | src/Network/Messages/PlayerInputs.h:20-22 | the object holds the given step, x, y and attack |
| Messages.PlayerInputs.SerializeImpl | src/Network/Messages/PlayerInputs.h:12-18 | step, x, y and attack are transferred in this order, as one run of transfers |
| Messages.PlayerInputs.Serialize | src/Network/Messages/PlayerInputs.cc:6-7 | the buffer becomes 'PLIN' followed by the images of the fields, and the fields are unchanged |
| Messages.PlayerInputs.Deserialize | src/Network/Messages/PlayerInputs.cc:6-7 | requires the tag; the fields become what the unchecked reads make of the payload |
| Messages.PlayerInputsRoundTrip | src/Network/Messages/PlayerInputs.h:12-22 | a serialized PlayerInputs reads back as the same step, x, y and attack |
| Messages.PlayerInputsCutShort | src/Network/Messages/PlayerInputs.h:14-17 | a payload cut after the step, with one to three bytes left: x and y keep their values and attack is read from the first stray byte |
| Messages.PlayerInputsStrayByte | src/Network/Messages/PlayerInputs.h:15-17 | with one to three bytes left, the x and y reads fail and the attack read takes the first byte |
| Messages.PlayerState.constructor | src/Network/Messages/PlayerState.h:20-22 | the object holds the given id, step, x and y |
| Messages.PlayerState.SerializeImpl | src/Network/Messages/PlayerState.h:12-18 | id, step, x and y are transferred in this order |
| Messages.PlayerState.Serialize | src/Network/Messages/PlayerState.cc:6-7 | the buffer becomes 'PLST' followed by the images of the fields, and the fields are unchanged |
| Messages.PlayerState.Deserialize | src/Network/Messages/PlayerState.cc:6-7 | requires the tag; the fields become what the unchecked reads make of the payload |
| Messages.PlayerStateRoundTrip | src/Network/Messages/PlayerState.h:12-22 | a serialized PlayerState reads back as the same id, step, x and y |
| Messages.PlayerStateCutShort | src/Network/Messages/PlayerState.h:14-17 | a payload cut inside the step: the id is read and step, x and y keep their values |
| Messages.EnemyState.constructor | src/Network/Messages/EnemyState.h:20-22 | the object holds the given id, step, x and y |
| Messages.EnemyState.SerializeImpl | src/Network/Messages/EnemyState.h:12-18 | id, step, x and y are transferred in this order |
| Messages.EnemyState.Serialize | src/Network/Messages/EnemyState.cc:6-7 | the buffer becomes 'ENST' followed by the images of the fields, and the fields are unchanged |
| Messages.EnemyState.Deserialize | src/Network/Messages/EnemyState.cc:6-7 | requires the tag; the fields become what the unchecked reads make of the payload |
| Messages.EnemyStateRoundTrip | src/Network/Messages/EnemyState.h:12-22 | a serialized EnemyState reads back as the same id, step, x and y |
| Messages.EnemyStateReadsNetEntityState | src/Network/Messages/EnemyState.cc:6 | EnemyState's Deserialize accepts a serialized NetEntityState and reads its id, step and position, leaving its other bytes unread |
| Messages.EncodeAllHead | src/Network/Messages/EnemyState.h:14-17 | the four EnemyState fields take 13 bytes |
| Messages.EncodeAllAppend | src/Game/EntityState.h:37-47 | the image of concatenated fields is the concatenation of their images |
| Messages.CreateRoom.constructor | src/Network/Messages/CreateRoom.h:20-21 | the object holds the given room id and player count |
| Messages.CreateRoom.SerializeImpl | src/Network/Messages/CreateRoom.h:12-16 | the room id (uint32) and then the player count (uint8) are transferred |
| Messages.CreateRoom.Serialize | src/Network/Messages/CreateRoom.cc:6-7 | the buffer becomes 'CRRM' followed by the images of the fields, and the fields are unchanged |
| Messages.CreateRoom.Deserialize | src/Network/Messages/CreateRoom.cc:6-7 | requires the tag; the fields become what the unchecked reads make of the payload |
| Messages.CreateRoomRoundTrip | src/Network/Messages/CreateRoom.h:12-21 | a serialized CreateRoom reads back as the same room id and count, for every id including kUnknownId 0xffffffff |
| Messages.CreateRoomCutShort | src/Network/Messages/CreateRoom.h:14-15 | a payload of one to three bytes: the room id keeps its value and the count is read from the first byte |
| Messages.NetEntityState.constructor | src/Game/EntityState.h:49-54 | the object holds the given entity state |
| Messages.NetEntityState.SerializeHead | src/Game/EntityState.h:39-42 | id, step, x and y are transferred in this order |
| Messages.NetEntityState.SerializeTail | src/Game/EntityState.h:43-46 | dx and dy as half floats, then actionState and actionStep |
| Messages.NetEntityState.SerializeImpl | src/Game/EntityState.h:37-47 | the eight fields are transferred in declared order, as one run |
| Messages.NetEntityState.Serialize | src/Game/EntityState.cc:5-6 | the buffer becomes 'ENST' followed by the images of the fields, and the value is unchanged |
| Messages.NetEntityState.Deserialize | src/Game/EntityState.cc:5-6 | requires the tag; the fields become what the unchecked reads make of the payload |
| Messages.NetEntityStateFieldsInjective | src/Game/EntityState.h:37-47 | the field list determines the entity state |
| Messages.NetEntityStateRoundTrip | src/Game/EntityState.h:37-54 | a serialized NetEntityState reads back as every field, the half-float bit patterns included |
| Messages.ReceivedEntityState | src/Game/EntityState.h:63-70 | the entity state a receiver builds from a read NetEntityState is the one built from the sent NetEntityState, whatever the message object held before |
| Messages.GameRoomData.constructor | src/Network/GameRoomData.cc:13-15 | a new room has no players |
| Messages.JoinRoom.constructor | src/Network/Messages/JoinRoom.h:38-40 | the object holds the given room id, flags and room data |
| Messages.JoinRoom.SerializeImpl | src/Network/Messages/JoinRoom.h:15-29 | roomId and then flags are transferred. The room data travels iff the flags, after their own transfer, say Success. A writer sends its room's players. A reader decodes into a freshly allocated GameRoomData |
| Messages.JoinRoom.Serialize | src/Network/Messages/JoinRoom.cc:6-7 | the buffer becomes 'JORM', the header, and the players iff Success |
| Messages.JoinRoom.Deserialize | src/Network/Messages/JoinRoom.cc:6-7 | the header is read; on Success a fresh room holds the array decoded right after it; otherwise the room data is untouched |
| Messages.JoinRoomDataStart | src/Network/Messages/JoinRoom.h:17-22 | a reader's room data starts right after the bytes the header's reads consumed |
| Messages.JoinRoomRoundTrip | src/Network/Messages/JoinRoom.h:15-36 | roomId and flags always read back (8 bytes); on Success (flags 1) the players read back too |
| Messages.StartGame.constructor | src/Network/Messages/StartGame.h:29-32 | the object holds the given room id, player id, flags and go time |
| Messages.StartGame.SerializeImpl | src/Network/Messages/StartGame.h:12-18 | roomId, playerId and flags are transferred, then goTime as a compensated timestamp |
| Messages.StartGameRoundTrip | src/Network/Messages/StartGame.h:12-32 | roomId, playerId and flags read back exactly; goTime reads back as whole milliseconds, shifted by the differentials' difference, exactly when they agree |
| Time.Updated | src/Core/Time/TimeSource.cc:38-43 | running: the delta is dt·timeFactor and is added to the total; paused: a zero delta and an unchanged total; counter and factor unchanged |
| Time.Paused | src/Core/Time/TimeSource.cc:26-30 | Pause: one more level of pausing; undone by Played (PlayedPaused) |
| Time.Played | src/Core/Time/TimeSource.cc:19-24 | Play: one level of pausing less, for a paused source |
| Time.ResetTotal | src/Core/Time/TimeSource.cc:32-36 | Reset: the total starts again from zero (ResetThenRun) |
| Time.UpdatedAll | src/Core/Time/TimeSource.cc:38-43 | a run of frames, one Update per delta; its total is given by UpdatedAllTotal |
| Time.PlayedPaused | src/Core/Time/TimeSource.cc:19-30 | Pause followed by Play restores the source |
| Time.UpdatedAllTotal | src/Core/Time/TimeSource.cc:38-43 | over a run of frames, a running source adds the scaled sum of the deltas and a paused one adds nothing |
| Time.ResetThenRun | src/Core/Time/TimeSource.cc:32-36 | Reset changes only the total, so the total after it is what the later updates add |
| Time.TimeSource.constructor | src/Core/Time/TimeSource.cc:9-14 | counter 0, delta 0, factor 1, total 0 |
| Time.TimeSource.Play | src/Core/Time/TimeSource.cc:19-24 | requires a paused source; decrements the counter only |
| Time.TimeSource.Pause | src/Core/Time/TimeSource.cc:26-30 | increments the counter only |
| Time.TimeSource.Reset | src/Core/Time/TimeSource.cc:32-36 | zeroes the total only |
| Time.TimeSource.Update | src/Core/Time/TimeSource.cc:38-43 | the source becomes Updated of its old state |
| Weak.Trackable.constructor | src/Core/Trackable.h:17 | a new target has no references registered |
| Weak.Trackable.AddWeakRef | src/Core/Trackable.h:20 | the reference is added to the target's set |
| Weak.Trackable.RemoveWeakRef | src/Core/Trackable.h:21 | the reference is removed from the target's set |
| Weak.WeakPtr.constructor | src/Core/WeakPtr.h:40-45 | null and registered nowhere |
| Weak.WeakPtr.FromPointer | src/Core/WeakPtr.h:47-58 | holds the pointer, and is registered with it iff it is not null |
| Weak.WeakPtr.Copy | src/Core/WeakPtr.h:60-71 | the same target, with this reference registered as well |
| Weak.WeakPtr.Move | src/Core/WeakPtr.h:73-86 | the source becomes null and deregistered; the new reference holds the target and is registered |
| Weak.WeakPtr.Set | src/Core/WeakPtr.h:100-113 | deregisters from the old target, holds p, and is registered with p when it is not null |
| Weak.WeakPtr.Invalidate | src/Core/WeakPtr.h:115-126 | deregisters and becomes null; a null reference stays null |
| Weak.WeakPtr.IsValid | src/Core/WeakPtr.h:128-133 | valid iff the pointer is not null |
| Weak.WeakPtr.Assign | src/Core/WeakPtr.h:135-141 | assignment from a reference is Set to its target, after which both are equal |
| Weak.WeakPtr.Equals | src/Core/WeakPtr.h:151-156 | equal iff both hold the same raw pointer, whichever objects the two references are |

## Left out

- Floating point: floats are reals, with no rounding. On the wire a float is its 32-bit pattern, and a half float its 16-bit pattern. Vector normalisation (`sqrtf`, `Vector2::Normalize`), `atan2f`/`AngleLerp`/`cosf`/`sinf` and the host's `kFixedTimeStep` are parameters of `Kinematics.Env`.
- Players.Step: entry into Moving is decided by the stick's squared length (> 0.0004), which matches `min(1, |v|) > 0.02` over the reals. The float rounding of that test is not modelled.
- Players.Step, Enemies.Stepped: the step counters are unbounded naturals. The uint32 wrap of `step` itself after 2^32 steps is not modelled. Differences of steps (`attackStep`, `step - actionStep`) do wrap (`Base.Wrap32`).
- Players.Player.SendPlayerState, Players.Player.Update: the source asserts and the array reads that can go out of range become the preconditions `ReceiveOk` and `UpdateOk`. For example, `states[i]` with `i == Count()` when every stored state is newer than the received one.
- Serialization.Serializable.Deserialize, Messages.PlayerInputs.Deserialize, Messages.PlayerState.Deserialize, Messages.EnemyState.Deserialize, Messages.CreateRoom.Deserialize, Messages.NetEntityState.Deserialize, Messages.JoinRoom.Deserialize: the tag is read with an unchecked `stream >> fcc` (`Serializable.h:116`), and the tag comparison is an assert (`Serializable.h:117`). Both become the precondition `HasTag`: at least four bytes, starting with the class's tag. Callers meet it by dispatching on the same tag first (`ServerInstance.cc:52-58`). A buffer shorter than four bytes or with another tag is not modelled.
- Players.Player.GetStateAtTime: between two states it reports the corrected action time `Players.BetweenTime`, not the expression of `Player.cc:379`. The two differ exactly when the bracketing states' action steps differ (`Players.BetweenTimeAgreement`). The code's value is `Players.BetweenTimeAsWritten`, and `Players.BetweenTimeWraps` shows the difference.
- `src/Game/Entity.h` is not modelled as a separate entity, because it does not compile as written. Its buffer operations are those of `Player.cc` and are modelled once in `History`. Its `GetCurrentAction` is modelled on the `Player` class. Its `FillEntityState` is left out.
- Players.NewPlayer: the initial state is built with the four-argument constructor of `EntityState.h:22-28`: facing (0, 1), Idle, with its action beginning at step 0. `Player.cc:41` calls a three-argument `State(0, x, y)` instead. The file that declares it, `Player.h:41`, is stale and shows no initial direction or action, so the model assumes the values of the generic constructor.
- `Player.h` and `Enemy.h` declare stale structures. The field sets the `.cc` files use are modelled instead.
- Players.StateMessage, Messages.PlayerState: `Player.cc:23-29` reads, and `Player.cc:385-393` writes, `dx`, `dy`, `actionState` and `actionStep` of a PlayerState message, while `Messages/PlayerState.h:20-22` declares only `id`, `step`, `x` and `y`. The two are modelled separately: `Players.StateMessage` has the seven fields the game code uses, `Messages.PlayerState` the four the wire format carries. No lemma connects them.
- Enemies.Stepped: the division by `sqrtf(sqDist)` is the environment's normalisation of the vector to the waypoint. The case of a zero distance is not distinguished.
- BitStream.h is not part of this model. Its buffer is a byte sequence with a cursor and little-endian images. The field reads of `NetStream::Serialize` are guarded by the stream's own check of the remaining bytes. The tag read of `Deserialize` is not guarded in the source; the model requires `HasTag` there instead (see the line on the Deserialize members). Bit-level packing is not modelled.
- `SerializeArray` and `SerializeHalfFloat` are not part of this model. The array format is a parameter (`NetStreams.ArrayCodec`), and half floats are 16-bit patterns.
- NetStreams.NetStream.SerializeTimestamp: the writer's return value is unspecified, because that branch returns nothing. The float `t * 0.001f` of the reader is the real product.
- The peer and `enet_peer_clock_differential` are replaced by a clock-differential parameter of the stream. `DefineSerializable` builds its streams without a peer, and the tagged Serialize and Deserialize are modelled with a differential of 0.
- Messages.StartGame has no tagged Serialize or Deserialize, because `StartGame.cc` registers another class. Only its payload is modelled.
- The message constructors leave their fields uninitialised in C++. In the model those fields are constructor arguments.
- Weak: the intrusive list links (`prevRef`, `nextRef`, `head`, `tail`) and `Trackable.cc` are not part of this model. The target's registrations are a ghost set, so `GetWeakRefCount` and `InvalidateAllWeakRefs` are left out.
- Weak: the destructor is the same code as `Invalidate` (`WeakPtr.h:88-98`) and is modelled by it. The pointer assignment `operator=(T*)` is `Set`. The `!=` operators are the negation of `Equals`. The conversion and dereference operators and `Cast` only return or dereference `ptr`.
- Time: the float accumulation of `totalTime` is real addition.
- The ENet transport, the instances' tick loops, the pre-connect send queue, allocators, pools, the class registry, logging, the bootstrap files and the Unity scripts are I/O or plumbing outside the core.
- The GameRoom and GameRoomData copy and move operations are not modelled. Only the empty constructor that JoinRoom's reader uses is modelled.

## Findings

| source | as written | input that shows it | evidently intended | confidence | as-written member | corrected member |
|---|---|---|---|---|---|---|
| src/Game/Player.cc:379 (also src/Game/Entity.h:359) | the action time of an interpolated sample is `(s0.step - s1.actionStep) * dt + (t - t0)`: the older state's step minus the newer state's action step, in uint32 | s0 = step 10, Idle since step 0; s1 = step 11, Moving since step 11; t = 11·dt. The reported time is 2^32·dt | the time since the reported older state's action began: `(s0.step - s0.actionStep) * dt + (t - t0)`, which is 11·dt here | medium; not executed | Players.BetweenTimeWraps | Players.BetweenTime |
