# Doodle Jump engine core in Dafny

This project models five small stateful pieces of the Doodle Jump game and its engine, and proves what each one promises. Each piece has one module and one file:

- **`GameLoop`** (`game_loop.dfy`) models the fixed-step loop of `Game` in `src/game.ts`:
  - An accumulator catches simulation time up with the frame's time in whole steps of `fixedDeltaTime = 1/60`.
  - Each step runs `fixedUpdate` on every game object and then one collision check.
  - Then one `update` pass and one `render` pass follow.
  - A frame is one call of `Game.GameLoop(time, scenes)`. It returns the trace of what the frame triggers, as `Event` values.
  - Each fixed pass, `update` and `render` reads the current scene's objects afresh, because hooks and collision listeners that run in between may change them. `scenes[k]` is what read k of the frame sees: fixed pass j reads `scenes[j]`, and after n passes `update` reads `scenes[n]` and `render` reads `scenes[n + 1]`.
  - A frame that runs n passes therefore takes n + 2 reads. `GameLoop` requires exactly that many entries, with n the `PassCount` of the time owed.
  - The trace is tied to the specification function `FrameEvents`, which is built from `FixedPass`, `FixedPasses` and `PassCount`. The lemmas prove the pass count, the carried-over time, the phase order and the number of collision checks.
- **`Collider`** (`collider.dfy`) models `src/engine/components/physics/Collider.ts`:
  - The module-level id counter becomes the class `IdCounter`.
  - The collider's event emitter is a map from event name to a list of callback identities. It is changed through `AddListener` and `RemoveListener`, which follow the Node.js `events` module: append, and remove the most recent occurrence.
  - Subscribe, unsubscribe and invoke are modelled for the three collision kinds.
  - `awake`/`destroy` register the collider's id in a `PhysicsRegistry` set and remove it again.
- **`Button`** (`button.dfy`) models the press/click state machine of `src/engine/components/ui/Button.ts`:
  - the hit test over a closed rectangle;
  - the `isPressed` flag;
  - the mouse-down and mouse-up handlers, each tied to the one-step function `Step`;
  - lemmas over whole input traces, built on `PressedAfter`.
- **`SpawnSet`** (`spawn_set.dfy`) models the constructor of `src/doodle-jump/spawners/SpawnSet.ts`. It stores its arguments and accumulates four chance totals in loops. Each total is proved equal to a recursive sum, and the sums are related by lemmas.
- **`FpsCounter`** (`fps_counter.dfy`) models the FPS text-writer closure of `createScorePanel` in `src/doodle-jump/scenes/DoodleJumpSceneContent.ts`:
  - The two captured variables become the fields of class `FpsCounter`.
  - One call becomes `Write`, tied to the step function `Tick`.
  - `Run` folds `Tick` over a sequence of call times.
  - The digits of the published count come from `NatToString`, with a proved round trip through `ParseDecimal`.

Host inputs become parameters and are never read from a clock:
- `performance.now()/1000` becomes the `time`/`now` argument of `GameLoop` and `StartGameLoop`.
- `Date.now()` becomes the `now`/`createdAt` argument of the FPS counter.
- The current scene's game objects, as each phase reads them, become the `scenes` argument.
- The identity of a callback becomes a `CallbackId`.

Times in the game loop are exact reals. FPS times are whole milliseconds.

## Model

| member | source | states |
|---|---|---|
| GameLoop.Game.constructor | src/game.ts:37-40 | `lastTime`, `deltaTime` and `fixedLastTime` start at 0; `fixedDeltaTime` is 1/60 |
| GameLoop.Game.StartGameLoop | src/game.ts:192-193 | both clocks are set to the same start time; `deltaTime` is untouched |
| GameLoop.Game.GameLoop | src/game.ts:198-215 | the frame's trace is `FrameEvents` of the old state, with `PassCount` passes and each phase over the objects its own scene read sees; `fixedLastTime` advances by exactly `PassCount` whole steps; the leftover `time - fixedLastTime` lies in `[0, fixedDeltaTime)`; with less than a step owed `fixedLastTime` is unchanged; `deltaTime == time - old lastTime` and `lastTime == time` |
| GameLoop.Game.FixedUpdate | src/game.ts:217-231 | one pass is every object's `fixedUpdate(t, dt)` in order, then exactly one collision check; with no scene only the check |
| GameLoop.Game.Update | src/game.ts:234-246 | every object's `update(t, dt)` in scene order; nothing without a scene |
| GameLoop.Game.Render | src/game.ts:248-263 | every object's `render(t, dt)` in scene order; nothing without a scene |
| GameLoop.Game.ForEachObject | src/game.ts:223-225 | one call per game object, in order, with the given time and step |
| GameLoop.ObjectCalls | src/game.ts:239-241 | the calls of a `forEach`: one per object |
| GameLoop.ObjectCallsPointwise | src/game.ts:239-241 | call i of a `forEach` is the hook's call on object i, with the given time and step |
| GameLoop.ObjectCallsHook | src/game.ts:223-225 | every call of a `forEach` is a call of that one hook |
| GameLoop.PassCountBounds | src/game.ts:201-206 | the number of passes n satisfies `n * step <= elapsed < (n + 1) * step`: nothing owed is dropped or run twice |
| GameLoop.LeftoverBelowStep | src/game.ts:201-206 | the time carried forward, `elapsed - PassCount * step`, lies in `[0, step)` |
| GameLoop.PassCountUnique | src/game.ts:201-206 | any k with `k * step <= elapsed < (k + 1) * step` is the pass count, so the count is `floor(elapsed / step)` |
| GameLoop.PassCountBelowStep | src/game.ts:201-202 | less than a step owed gives no pass |
| GameLoop.PassCountTwoAndAHalf | src/game.ts:201-206 | 2.5 steps owed give exactly 2 passes and carry half a step forward |
| GameLoop.GuardIffPassesLeft | src/game.ts:202 | after k passes the guard `fixedDeltaTime <= deltaFixedTime` holds iff k is below the pass count |
| GameLoop.FixedPassChecksOnce | src/game.ts:220-228 | a fixed pass checks collisions exactly once, with or without a scene |
| GameLoop.FixedPassesCheckCount | src/game.ts:202-206 | n fixed passes check collisions exactly n times |
| GameLoop.FixedPassesLength | src/game.ts:202-206 | n fixed passes emit, pass by pass, the objects of that pass's scene read plus one collision check |
| GameLoop.SteadySceneWidth | src/game.ts:220-228 | when every read sees the same scene, n passes emit n times (objects + 1) events |
| GameLoop.FixedPassesPrefix | src/game.ts:202-206 | the passes run so far are a prefix of the passes of the whole frame |
| GameLoop.FixedPassesBlock | src/game.ts:203-204 | pass j (0-based) is a full fixed pass over the objects of read j at time `start + (j + 1) * step` with step `fixedDeltaTime`, so successive passes are one step apart and strictly increasing |
| GameLoop.FixedPassesAreFixedPhase | src/game.ts:202-206 | the passes contain only fixed-update calls and collision checks |
| GameLoop.CountChecksAppend | src/game.ts:202-212 | collision checks of a concatenated trace add up |
| GameLoop.ObjectCallsHaveNoChecks | src/game.ts:223-225 | a `forEach` over objects triggers no collision check |
| GameLoop.PhaseOrderedOfBlocks | src/game.ts:202-212 | fixed events, then update events, then render events, form a phase-ordered trace |
| GameLoop.FramePhases | src/game.ts:198-215 | a frame's trace runs all n fixed passes before every update and every update before every render, and checks collisions exactly n times |
| GameLoop.FrameTail | src/game.ts:209-212 | after the fixed passes, `update` runs once on each object its read sees, in order, then `render` once on each object its own read sees, in order, both with the frame's `time` and `time - old lastTime` |
| Collider.AddListener | src/engine/components/physics/Collider.ts:31-41 | `addListener` appends the callback to that name's list and leaves every other name's list unchanged; no empty list appears |
| Collider.LastIndexOf | src/engine/components/physics/Collider.ts:43-53 | -1 iff the callback is absent; otherwise its most recent position |
| Collider.RemoveLast | src/engine/components/physics/Collider.ts:43-53 | an absent callback leaves the list unchanged; otherwise exactly one occurrence of it goes |
| Collider.RemoveLastDropsMostRecent | src/engine/components/physics/Collider.ts:43-53 | the occurrence removed is the most recent one, and the listeners before and after it keep their order |
| Collider.RemoveLastAfterAppend | src/engine/components/physics/Collider.ts:31-53 | removing a callback right after appending it gives back the list |
| Collider.RemoveListener | src/engine/components/physics/Collider.ts:43-53 | `removeListener` changes only that name's list; an absent callback leaves the emitter unchanged; no empty list is kept |
| Collider.AddThenRemove | src/engine/components/physics/Collider.ts:31-53 | unsubscribing right after subscribing restores every list exactly |
| Collider.EventNamesDistinct | src/engine/components/physics/Collider.ts:15-17 | the three kinds use three different event names, so their lists are independent |
| Collider.IdCounter.constructor | src/engine/components/physics/Collider.ts:7 | the counter starts at 0 with no id issued |
| Collider.IdCounter.Take | src/engine/components/physics/Collider.ts:21 | `idCounter++` yields the current value and increments it; issued ids stay strictly increasing |
| Collider.Collider.constructor | src/engine/components/physics/Collider.ts:19-23 | the new collider takes the counter's value as id and the counter moves on by one, so ids are distinct and increasing; `isTrigger` is the argument, `isEnable` is true, and there are no listeners |
| Collider.Collider.Awake | src/engine/components/physics/Collider.ts:26-28 | the collider is added to the physics registry |
| Collider.Collider.Destroy | src/engine/components/physics/Collider.ts:81-83 | the collider is removed from the registry and is no longer in it |
| Collider.Collider.Subscribe | src/engine/components/physics/Collider.ts:31-41 | the callback is appended to that kind's list; the other two kinds are unchanged |
| Collider.Collider.Unsubscribe | src/engine/components/physics/Collider.ts:43-53 | the callback is removed from that kind only; a callback never subscribed leaves every list unchanged |
| Collider.Collider.Invoke | src/engine/components/physics/Collider.ts:55-65 | emitting a kind calls exactly its current listeners, in subscription order, each with `other` |
| Collider.Collider.CollidesWith | src/engine/components/physics/Collider.ts:68-73 | false for every input, enabled or not |
| Collider.Collider.Clone | src/engine/components/physics/Collider.ts:76-79 | a new collider with the same `isTrigger`, a larger id and no listeners |
| Button.Button.constructor | src/engine/components/ui/Button.ts:11-22 | the rectangle and `onClick` are stored; the button starts unpressed |
| Button.Button.IsMouseInside | src/engine/components/ui/Button.ts:60-65 | inside iff `x <= clientX <= x + width` and `y <= clientY <= y + height`; the corners count as inside |
| Button.Button.HandleMouseDown | src/engine/components/ui/Button.ts:31-36 | a press inside sets `isPressed` and calls `onMouseDown`; a press outside changes nothing |
| Button.Button.HandleMouseUp | src/engine/components/ui/Button.ts:38-47 | unpressed: nothing; pressed: clears `isPressed`, calls `onMouseUp`, and fires `onClick` at most once, exactly when the release is inside |
| Button.PressedHasArmingDown | src/engine/components/ui/Button.ts:31-47 | a pressed button had a press inside with no release since |
| Button.ClickNeedsPressInside | src/engine/components/ui/Button.ts:31-47 | over any input trace, every click comes from a release inside, preceded by a press inside with no release between the two |
| Button.PressThenReleaseClicks | src/engine/components/ui/Button.ts:31-47 | conversely, a press inside followed by a release inside, with no release between, fires exactly one click |
| Button.StaysPressed | src/engine/components/ui/Button.ts:31-39 | after a press inside the button stays pressed until the next release |
| Button.Button.Clone | src/engine/components/ui/Button.ts:73-75 | the clone keeps the rectangle and `onClick` and starts unpressed |
| SpawnSet.SpawnSet.constructor | src/doodle-jump/spawners/SpawnSet.ts:28-64 | every argument is stored in its field; the four totals equal the sums of platform chances, non-breakable platform chances, obstacle chances and item chances; empty lists give 0 |
| SpawnSet.PlatformChancesSplit | src/doodle-jump/spawners/SpawnSet.ts:46-52 | the platform total is the non-breakable total plus the breakable total |
| SpawnSet.BreakableChancesNonNegative | src/doodle-jump/spawners/SpawnSet.ts:46-52 | with non-negative chances the breakable part is non-negative |
| SpawnSet.NonBreakableAtMostTotal | src/doodle-jump/spawners/SpawnSet.ts:46-52 | with non-negative chances the non-breakable total is at most the platform total |
| SpawnSet.NoBreakableMeansEqualTotals | src/doodle-jump/spawners/SpawnSet.ts:46-52 | with no breakable platform the two platform totals are equal |
| FpsCounter.NatToString | src/doodle-jump/scenes/DoodleJumpSceneContent.ts:159 | the count's text is a non-empty string of decimal digits with no leading zero |
| FpsCounter.NatToStringRoundTrip | src/doodle-jump/scenes/DoodleJumpSceneContent.ts:159 | reading the digits back gives the count |
| FpsCounter.FpsText | src/doodle-jump/scenes/DoodleJumpSceneContent.ts:159 | the published text is `FPS: ` followed by the decimal digits of the count |
| FpsCounter.InitialTextIsZeroCount | src/doodle-jump/scenes/DoodleJumpSceneContent.ts:145 | the initial `FPS: 0` is the text a count of zero publishes |
| FpsCounter.FpsCounter.constructor | src/doodle-jump/scenes/DoodleJumpSceneContent.ts:148-149 | the window starts at the creation time with no frame counted |
| FpsCounter.FpsCounter.Write | src/doodle-jump/scenes/DoodleJumpSceneContent.ts:151-164 | under 1000 ms since the last publication: count one frame, keep the time, return the current text; otherwise return `FPS: ` and the pre-reset count, reset the count to 0 and the time to `now` |
| FpsCounter.TickStateIgnoresText | src/doodle-jump/scenes/DoodleJumpSceneContent.ts:152-163 | the captured state never depends on the text the renderer shows |
| FpsCounter.RunBounds | src/doodle-jump/scenes/DoodleJumpSceneContent.ts:148-164 | with non-decreasing times, `lastUpdateTime` stays between its start and the latest time seen |
| FpsCounter.LastUpdateTimeMonotone | src/doodle-jump/scenes/DoodleJumpSceneContent.ts:155-156 | whatever the call times, `lastUpdateTime` never decreases from one call to a later one |
| FpsCounter.CountingWithinWindow | src/doodle-jump/scenes/DoodleJumpSceneContent.ts:155-163 | calls within 1000 ms of the window start only count frames, one each |
| FpsCounter.PublishesFramesOfWindow | src/doodle-jump/scenes/DoodleJumpSceneContent.ts:155-162 | the published count is the number of calls in the window; the publishing call is not counted, and it starts a new window at `now` with count 0 |

The specification functions have no contract of their own. Each is stated through the members above:
- `GameLoop.PassCount`, `FixedPass`, `FixedPasses` and `FrameEvents` model `src/game.ts:201-212`.
- `Button.Step` and `Button.PressedAfter` model `src/engine/components/ui/Button.ts:31-47`.
- The sum functions of `SpawnSet` model `src/doodle-jump/spawners/SpawnSet.ts:46-60`.
- `FpsCounter.Tick` and `FpsCounter.Run` model `src/doodle-jump/scenes/DoodleJumpSceneContent.ts:151-164`.
- `Collider.PhysicsRegistry` is an abstract stand-in for `PhysicManager`, which is not part of this model. It holds only the set of registered collider ids, and its constructor starts that set empty.
- The constants `FpsCounter.ScoreInitialText` and `FpsInitialText` are the initial texts at `src/doodle-jump/scenes/DoodleJumpSceneContent.ts:139` and `:145`.

## Left out

- WebGL: `webGLManager.clearScreen()` in `render` and all drawing have no behaviour to verify here. The canvas and manager construction in the `Game` constructor are left out too.
- Start-up: the asynchronous `initialize`/`initializeGameScene` and `loadSceneByName('main')` in `startGameLoop` are left out. They load assets and wire scenes through a `SceneManager` that is not part of this model.
- GameLoop.Game.GameLoop: the caller supplies the object list that each read of the current scene sees, one entry per fixed pass plus one for `update` and one for `render`. How hooks and listeners change the scene between reads is not modelled. The model fixes only which read each phase uses.
- Host calls: `performance.now()`, `Date.now()` and `requestAnimationFrame` are host calls. Times are parameters, and one `GameLoop` call is one animation frame.
- Game objects: `GameObject`, `PhysicManager` and `InputManager` are not part of this model. Their hooks and `checkCollisions` appear only as trace events, and physics registration only as a set of collider ids. What a listener or hook does when called is not modelled.
- Floating point: times and chances are exact reals or integers. The rounding drift that JavaScript doubles give the accumulator, and in the chance sums, is not modelled.
- GameLoop.PassCount: it is the exact floor of `elapsed / step` over reals. The double-precision loop can run one pass more or fewer when `elapsed` is within rounding of a multiple of `1/60`.
- Collider.RemoveListener: the Node.js `events` behaviour beyond add, remove and emit is not modelled. That includes `newListener`/`removeListener` events, the listener limit, and `once`. Listeners are compared by identity.
- Collider.Collider.Invoke: returns the calls it makes instead of making them. A listener that subscribes or unsubscribes during an emit does not change that emit's calls, and the model does not show such a listener.
- Button `start` and `destroy` are left out. They subscribe `mouseDown`/`mouseUp` to `InputManager`, which is not part of this model. The handlers `destroy` passes come from fresh `bind` calls, so they are not the subscribed functions and the subscriptions survive.
- Button `onMouseDown`/`onMouseUp` only log. They appear as reactions.
- Button's default no-op `onClick` is an ordinary callback identity.
- SpawnSet: `vec2` values and the three spawn-info lists are stored by value. The source stores `varianceX`, `varianceY`, `platformSpawnInfos`, `obstacleSpawnInfos` and `platformItemSpawnInfos` by reference. A caller who later changes one of those lists changes the stored list without changing the totals, and the model does not capture that aliasing. Of the spawn-info entries, only the fields the totals read are kept.
- FpsCounter: the `TextWriter` and `TextRenderer` classes are not part of this model. The renderer's current text is a parameter of `Write`, and stands for `fpstextRenderer.getText()`. The score text writer is left out except for its initial text.
- FpsCounter.NatToString: it writes non-negative integers in decimal. This is what JavaScript's number-to-string gives for the whole counts that occur here.
