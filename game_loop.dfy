/**
 * The fixed-step game loop of `Game` (src/game.ts).
 *
 * One call of `GameLoop` is one animation frame. An accumulator catches
 * simulation time up with the frame's time in whole fixed steps, each step
 * running `fixedUpdate` on every game object and then exactly one collision
 * check; then one `update` pass and one `render` pass follow. What the frame
 * triggers is returned as a trace of events. Each phase reads the current
 * scene afresh, so each may see a different list of objects. Time is exact
 * `real` arithmetic.
 */
module GameLoop {

  /** Identity of a game object of the current scene. */
  type GameObjectId = nat

  /** `fixedDeltaTime` of the source: one sixtieth of a second. */
  const FixedStep: real := 1.0 / 60.0

  /** What `sceneManager.getCurrentScene()?.getGameObjects()` yields. */
  datatype CurrentScene = NoScene | Scene(gameObjects: seq<GameObjectId>)

  /**
   * The current scene as each phase of a frame reads it, in the order of the
   * reads: fixed pass j (from 0) reads `scenes[j]`, and after n fixed passes
   * `update` reads `scenes[n]` and `render` reads `scenes[n + 1]`. Hooks and
   * collision listeners run between the reads and may change the scene's
   * objects, so each read may see a different list.
   */
  type SceneReads = seq<CurrentScene>

  /** The per-object lifecycle hook a phase calls. */
  datatype Hook = FixedUpdateHook | UpdateHook | RenderHook

  /** What a frame triggers, in the order it triggers it. */
  datatype Event =
    | ObjectCall(hook: Hook, obj: GameObjectId, time: real, delta: real)
    | CheckCollisions

  function Objects(scene: CurrentScene): seq<GameObjectId>
  {
    match scene
    case NoScene => []
    case Scene(objs) => objs
  }

  /** The calls a `forEach` over `objs` makes: one per object, in order. */
  function ObjectCalls(hook: Hook, objs: seq<GameObjectId>, t: real, dt: real): (r: seq<Event>)
    ensures |r| == |objs|
  {
    if objs == [] then []
    else ObjectCalls(hook, objs[..|objs| - 1], t, dt) + [ObjectCall(hook, objs[|objs| - 1], t, dt)]
  }

  /** Call i of a `forEach` over `objs` is the hook's call on object i. */
  lemma {:induction false} ObjectCallsPointwise(hook: Hook, objs: seq<GameObjectId>, t: real, dt: real)
    ensures forall i :: 0 <= i < |objs| ==> ObjectCalls(hook, objs, t, dt)[i] == ObjectCall(hook, objs[i], t, dt)
  {
    if objs != [] {
      ObjectCallsPointwise(hook, objs[..|objs| - 1], t, dt);
    }
  }

  /** Every event of a `forEach` over objects is a call of that one hook. */
  lemma ObjectCallsHook(hook: Hook, objs: seq<GameObjectId>, t: real, dt: real)
    ensures forall e :: e in ObjectCalls(hook, objs, t, dt) ==> e.ObjectCall? && e.hook == hook
  {
    ObjectCallsPointwise(hook, objs, t, dt);
  }

  /** One fixed-update pass: every object's `fixedUpdate`, then one collision check. */
  function FixedPass(scene: CurrentScene, t: real, dt: real): seq<Event>
  {
    ObjectCalls(FixedUpdateHook, Objects(scene), t, dt) + [CheckCollisions]
  }

  /** Number of fixed passes a frame runs when `elapsed` time is owed to the simulation. */
  function PassCount(elapsed: real, step: real): nat
    requires step > 0.0
  {
    if elapsed < step then 0 else (elapsed / step).Floor
  }

  /**
   * The first `n` fixed passes after `start`: pass k (1-based) runs at
   * `start + k * step` over the scene of read k - 1.
   */
  function FixedPasses(scenes: SceneReads, start: real, step: real, n: nat): seq<Event>
    requires n <= |scenes|
  {
    if n == 0 then []
    else FixedPasses(scenes, start, step, n - 1) + FixedPass(scenes[n - 1], start + n as real * step, step)
  }

  /**
   * Everything a frame that runs `n` fixed passes triggers, as a function of
   * the state before it and of what its scene reads see.
   */
  function FrameEvents(scenes: SceneReads, fixedLastTime: real, lastTime: real, time: real, step: real, n: nat): seq<Event>
    requires |scenes| == n + 2
  {
    FixedPasses(scenes, fixedLastTime, step, n)
    + ObjectCalls(UpdateHook, Objects(scenes[n]), time, time - lastTime)
    + ObjectCalls(RenderHook, Objects(scenes[n + 1]), time, time - lastTime)
  }

  /** Number of collision checks in a trace. */
  function CountChecks(evs: seq<Event>): nat
  {
    if evs == [] then 0
    else CountChecks(evs[..|evs| - 1]) + (if evs[|evs| - 1] == CheckCollisions then 1 else 0)
  }

  /** Phase of an event: fixed update (with its collision checks), update, render. */
  function Rank(e: Event): nat
  {
    match e
    case CheckCollisions => 0
    case ObjectCall(hook, _, _, _) =>
      match hook
      case FixedUpdateHook => 0
      case UpdateHook => 1
      case RenderHook => 2
  }

  ghost predicate PhaseOrdered(evs: seq<Event>)
  {
    forall i, j :: 0 <= i < j < |evs| ==> Rank(evs[i]) <= Rank(evs[j])
  }

  // ---------------------------------------------------------------------
  // The accumulator

  lemma MulMono(a: int, b: int, step: real)
    requires a <= b && step > 0.0
    ensures a as real * step <= b as real * step
  {
  }

  /** Multiplying the bounds of a floor back by the step. */
  lemma FloorTimesStep(elapsed: real, step: real, n: int)
    requires step > 0.0
    requires n as real <= elapsed / step < (n + 1) as real
    ensures n as real * step <= elapsed < (n + 1) as real * step
  {
  }

  /** The pass count is floor(elapsed / step): what is left over lies in [0, step). */
  lemma PassCountBounds(elapsed: real, step: real)
    requires step > 0.0 && 0.0 <= elapsed
    ensures PassCount(elapsed, step) as real * step <= elapsed
    ensures elapsed < (PassCount(elapsed, step) + 1) as real * step
  {
    if step <= elapsed {
      var q := elapsed / step;
      FloorTimesStep(elapsed, step, q.Floor);
    }
  }

  /** What a frame carries forward, `elapsed - PassCount * step`, lies in `[0, step)`. */
  lemma LeftoverBelowStep(elapsed: real, step: real)
    requires step > 0.0 && 0.0 <= elapsed
    ensures 0.0 <= elapsed - PassCount(elapsed, step) as real * step < step
  {
    var n := PassCount(elapsed, step);
    PassCountBounds(elapsed, step);
    assert (n + 1) as real * step == n as real * step + step;
  }

  /** Dividing the bounds `k * step <= elapsed < (k + 1) * step` by the step. */
  lemma DivideBounds(elapsed: real, step: real, k: int)
    requires step > 0.0
    requires k as real * step <= elapsed < (k + 1) as real * step
    ensures k as real <= elapsed / step < (k + 1) as real
  {
  }

  /** The pass count is the only whole number of steps that leaves less than a step over. */
  lemma PassCountUnique(elapsed: real, step: real, k: nat)
    requires step > 0.0
    requires k as real * step <= elapsed < (k + 1) as real * step
    ensures PassCount(elapsed, step) == k
  {
    DivideBounds(elapsed, step, k);
    if 1 <= k {
      MulMono(1, k, step);
    }
  }

  /** When less than a step is owed, the frame runs no fixed pass. */
  lemma PassCountBelowStep(elapsed: real, step: real)
    requires step > 0.0 && elapsed < step
    ensures PassCount(elapsed, step) == 0
  {
  }

  /** Two and a half steps owed give exactly two passes and half a step carried forward. */
  lemma PassCountTwoAndAHalf(step: real)
    requires step > 0.0
    ensures PassCount(2.5 * step, step) == 2
    ensures 2.5 * step - PassCount(2.5 * step, step) as real * step == 0.5 * step
  {
    PassCountUnique(2.5 * step, step, 2);
  }

  /** After k passes the loop guard `fixedDeltaTime <= deltaFixedTime` holds iff more passes are owed. */
  lemma GuardIffPassesLeft(elapsed: real, step: real, k: nat)
    requires step > 0.0 && k <= PassCount(elapsed, step)
    ensures step <= elapsed - k as real * step <==> k < PassCount(elapsed, step)
  {
    var n := PassCount(elapsed, step);
    if elapsed < 0.0 {
      assert n == 0 && k == 0;
    } else {
      PassCountBounds(elapsed, step);
      if k < n {
        MulMono(k + 1, n, step);
      }
    }
  }

  // ---------------------------------------------------------------------
  // The trace of a frame

  lemma {:induction false} CountChecksAppend(a: seq<Event>, b: seq<Event>)
    ensures CountChecks(a + b) == CountChecks(a) + CountChecks(b)
    decreases |b|
  {
    if b == [] {
      assert a + b == a;
    } else {
      assert (a + b)[..|a + b| - 1] == a + b[..|b| - 1];
      CountChecksAppend(a, b[..|b| - 1]);
    }
  }

  lemma {:induction false} ObjectCallsHaveNoChecks(hook: Hook, objs: seq<GameObjectId>, t: real, dt: real)
    ensures CountChecks(ObjectCalls(hook, objs, t, dt)) == 0
    decreases |objs|
  {
    if objs != [] {
      var calls := ObjectCalls(hook, objs, t, dt);
      assert calls[..|calls| - 1] == ObjectCalls(hook, objs[..|objs| - 1], t, dt);
      ObjectCallsHaveNoChecks(hook, objs[..|objs| - 1], t, dt);
    }
  }

  /** Each fixed pass checks collisions exactly once, with or without a scene. */
  lemma FixedPassChecksOnce(scene: CurrentScene, t: real, dt: real)
    ensures CountChecks(FixedPass(scene, t, dt)) == 1
  {
    var calls := ObjectCalls(FixedUpdateHook, Objects(scene), t, dt);
    ObjectCallsHaveNoChecks(FixedUpdateHook, Objects(scene), t, dt);
    CountChecksAppend(calls, [CheckCollisions]);
    assert [CheckCollisions][..0] == [];
  }

  lemma {:induction false} FixedPassesCheckCount(scenes: SceneReads, start: real, step: real, n: nat)
    requires n <= |scenes|
    ensures CountChecks(FixedPasses(scenes, start, step, n)) == n
  {
    if n > 0 {
      var prefix := FixedPasses(scenes, start, step, n - 1);
      var last := FixedPass(scenes[n - 1], start + n as real * step, step);
      FixedPassesCheckCount(scenes, start, step, n - 1);
      FixedPassChecksOnce(scenes[n - 1], start + n as real * step, step);
      CountChecksAppend(prefix, last);
      assert FixedPasses(scenes, start, step, n) == prefix + last;
    }
  }

  /** Number of events in one fixed pass. */
  function PassWidth(scene: CurrentScene): nat
  {
    |Objects(scene)| + 1
  }

  /** Number of events in the first `n` fixed passes, pass by pass. */
  function PassesWidth(scenes: SceneReads, n: nat): nat
    requires n <= |scenes|
  {
    if n == 0 then 0 else PassesWidth(scenes, n - 1) + PassWidth(scenes[n - 1])
  }

  lemma {:induction false} FixedPassesLength(scenes: SceneReads, start: real, step: real, n: nat)
    requires n <= |scenes|
    ensures |FixedPasses(scenes, start, step, n)| == PassesWidth(scenes, n)
  {
    if n > 0 {
      FixedPassesLength(scenes, start, step, n - 1);
    }
  }

  /** When every read sees the same scene, each of the `n` passes has the same width. */
  lemma {:induction false} SteadySceneWidth(scenes: SceneReads, scene: CurrentScene, n: nat)
    requires n <= |scenes|
    requires forall k :: 0 <= k < |scenes| ==> scenes[k] == scene
    ensures PassesWidth(scenes, n) == n * PassWidth(scene)
  {
    if n > 0 {
      SteadySceneWidth(scenes, scene, n - 1);
      assert n * PassWidth(scene) == (n - 1) * PassWidth(scene) + PassWidth(scene);
    }
  }

  /** The passes of a frame that stopped earlier are a prefix of the passes of one that ran on. */
  lemma {:induction false} FixedPassesPrefix(scenes: SceneReads, start: real, step: real, m: nat, n: nat)
    requires n <= |scenes|
    requires m <= n
    ensures FixedPasses(scenes, start, step, m) <= FixedPasses(scenes, start, step, n)
    decreases n
  {
    if m < n {
      FixedPassesPrefix(scenes, start, step, m, n - 1);
    }
  }

  /**
   * The passes of a frame, cut into blocks of one pass each: block j (0-based),
   * which starts after the events of the first j passes, is a whole fixed pass
   * over the scene of read j at time `start + (j + 1) * step` with step `step`;
   * so successive passes are one step apart and strictly increasing.
   */
  lemma FixedPassesBlock(scenes: SceneReads, start: real, step: real, n: nat, j: nat)
    requires n <= |scenes|
    requires j < n
    ensures |FixedPasses(scenes, start, step, j)| == PassesWidth(scenes, j)
    ensures |FixedPasses(scenes, start, step, n)| == PassesWidth(scenes, n)
    ensures PassesWidth(scenes, j + 1) <= PassesWidth(scenes, n)
    ensures FixedPasses(scenes, start, step, n)[PassesWidth(scenes, j) .. PassesWidth(scenes, j + 1)]
         == FixedPass(scenes[j], start + (j + 1) as real * step, step)
  {
    var before := FixedPasses(scenes, start, step, j);
    var block := FixedPass(scenes[j], start + (j + 1) as real * step, step);
    var all := FixedPasses(scenes, start, step, n);
    FixedPassesPrefix(scenes, start, step, j + 1, n);
    assert FixedPasses(scenes, start, step, j + 1) == before + block;
    assert all[|before|..|before| + |block|] == block;
    FixedPassesLength(scenes, start, step, j);
    FixedPassesLength(scenes, start, step, j + 1);
    FixedPassesLength(scenes, start, step, n);
  }

  lemma {:induction false} FixedPassesAreFixedPhase(scenes: SceneReads, start: real, step: real, n: nat)
    requires n <= |scenes|
    ensures forall e :: e in FixedPasses(scenes, start, step, n) ==> Rank(e) == 0
  {
    if n > 0 {
      FixedPassesAreFixedPhase(scenes, start, step, n - 1);
      ObjectCallsHook(FixedUpdateHook, Objects(scenes[n - 1]), start + n as real * step, step);
    }
  }

  lemma PhaseOrderedOfBlocks(fixed: seq<Event>, updates: seq<Event>, renders: seq<Event>)
    requires forall e :: e in fixed ==> Rank(e) == 0
    requires forall e :: e in updates ==> Rank(e) == 1
    requires forall e :: e in renders ==> Rank(e) == 2
    ensures PhaseOrdered(fixed + updates + renders)
  {
    var evs := fixed + updates + renders;
    forall i | 0 <= i < |evs|
      ensures Rank(evs[i]) == (if i < |fixed| then 0 else if i < |fixed| + |updates| then 1 else 2)
    {
      if i < |fixed| {
        assert evs[i] == fixed[i];
      } else if i < |fixed| + |updates| {
        assert evs[i] == updates[i - |fixed|];
      } else {
        assert evs[i] == renders[i - |fixed| - |updates|];
      }
    }
  }

  /**
   * A frame runs all its fixed passes first, then the `update` calls, then the
   * `render` calls, and checks collisions exactly once per fixed pass.
   */
  lemma FramePhases(scenes: SceneReads, fixedLastTime: real, lastTime: real, time: real, step: real, n: nat)
    requires |scenes| == n + 2
    ensures PhaseOrdered(FrameEvents(scenes, fixedLastTime, lastTime, time, step, n))
    ensures CountChecks(FrameEvents(scenes, fixedLastTime, lastTime, time, step, n)) == n
  {
    var fixed := FixedPasses(scenes, fixedLastTime, step, n);
    var updates := ObjectCalls(UpdateHook, Objects(scenes[n]), time, time - lastTime);
    var renders := ObjectCalls(RenderHook, Objects(scenes[n + 1]), time, time - lastTime);
    FixedPassesAreFixedPhase(scenes, fixedLastTime, step, n);
    ObjectCallsHook(UpdateHook, Objects(scenes[n]), time, time - lastTime);
    ObjectCallsHook(RenderHook, Objects(scenes[n + 1]), time, time - lastTime);
    PhaseOrderedOfBlocks(fixed, updates, renders);
    FixedPassesCheckCount(scenes, fixedLastTime, step, n);
    ObjectCallsHaveNoChecks(UpdateHook, Objects(scenes[n]), time, time - lastTime);
    ObjectCallsHaveNoChecks(RenderHook, Objects(scenes[n + 1]), time, time - lastTime);
    CountChecksAppend(fixed, updates);
    CountChecksAppend(fixed + updates, renders);
  }

  /**
   * After the fixed passes, a frame calls `update` once on every object of the
   * scene as it then reads it, in order, and then `render` once on every object
   * of the scene as the next read sees it, in order, both with the frame's time
   * and `time - lastTime`.
   */
  lemma FrameTail(scenes: SceneReads, fixedLastTime: real, lastTime: real, time: real, step: real, n: nat)
    requires |scenes| == n + 2
    ensures var evs := FrameEvents(scenes, fixedLastTime, lastTime, time, step, n);
            var forUpdate := Objects(scenes[n]);
            var forRender := Objects(scenes[n + 1]);
            var f := PassesWidth(scenes, n);
            var g := f + |forUpdate|;
            && |evs| == g + |forRender|
            && (forall i :: 0 <= i < |forUpdate| ==> evs[f + i] == ObjectCall(UpdateHook, forUpdate[i], time, time - lastTime))
            && (forall i :: 0 <= i < |forRender| ==> evs[g + i] == ObjectCall(RenderHook, forRender[i], time, time - lastTime))
  {
    var fixed := FixedPasses(scenes, fixedLastTime, step, n);
    var updates := ObjectCalls(UpdateHook, Objects(scenes[n]), time, time - lastTime);
    var renders := ObjectCalls(RenderHook, Objects(scenes[n + 1]), time, time - lastTime);
    var evs := fixed + updates + renders;
    assert FrameEvents(scenes, fixedLastTime, lastTime, time, step, n) == evs;
    FixedPassesLength(scenes, fixedLastTime, step, n);
    var f := |fixed|;
    var g := f + |updates|;
    forall i | 0 <= i < |updates|
      ensures evs[f + i] == ObjectCall(UpdateHook, Objects(scenes[n])[i], time, time - lastTime)
    {
      ObjectCallsPointwise(UpdateHook, Objects(scenes[n]), time, time - lastTime);
      assert evs[f + i] == updates[i];
    }
    var forRender := Objects(scenes[n + 1]);
    forall i | 0 <= i < |forRender|
      ensures evs[g + i] == ObjectCall(RenderHook, forRender[i], time, time - lastTime)
    {
      ObjectCallsPointwise(RenderHook, forRender, time, time - lastTime);
      assert evs[g + i] == renders[i];
    }
  }

  // ---------------------------------------------------------------------
  // The class

  class Game {
    var lastTime: real
    var deltaTime: real
    const fixedDeltaTime: real := FixedStep
    var fixedLastTime: real

    /** The field initialisers of the source: all times start at 0. */
    constructor ()
      ensures lastTime == 0.0 && deltaTime == 0.0 && fixedLastTime == 0.0
    {
      lastTime, deltaTime, fixedLastTime := 0.0, 0.0, 0.0;
    }

    /** `startGameLoop`: both clocks start at the same time `now` (`performance.now()/1000`). */
    method StartGameLoop(now: real)
      modifies this
      ensures lastTime == now && fixedLastTime == now
      ensures deltaTime == old(deltaTime)
    {
      lastTime := now;
      fixedLastTime := lastTime;
    }

    /**
     * One frame at time `time` (`performance.now()/1000`); read k of the
     * current scene's objects in this frame sees `scenes[k]`, one read per
     * fixed pass and one each for `update` and `render`. Returns what the
     * frame triggers.
     */
    method GameLoop(time: real, scenes: SceneReads) returns (events: seq<Event>)
      requires |scenes| == PassCount(time - fixedLastTime, fixedDeltaTime) + 2
      modifies this
      ensures events == FrameEvents(scenes, old(fixedLastTime), old(lastTime), time, fixedDeltaTime,
                                    PassCount(time - old(fixedLastTime), fixedDeltaTime))
      ensures fixedLastTime == old(fixedLastTime)
        + PassCount(time - old(fixedLastTime), fixedDeltaTime) as real * fixedDeltaTime
      ensures old(fixedLastTime) <= time ==> 0.0 <= time - fixedLastTime < fixedDeltaTime
      ensures time - old(fixedLastTime) < fixedDeltaTime ==> fixedLastTime == old(fixedLastTime)
      ensures deltaTime == time - old(lastTime) && lastTime == time
    {
      ghost var start := fixedLastTime;
      ghost var n := PassCount(time - start, fixedDeltaTime);
      // Number of fixed passes run so far, which is also the number of scene reads so far.
      var passes: nat := 0;
      var deltaFixedTime := time - fixedLastTime;
      events := [];
      while fixedDeltaTime <= deltaFixedTime
        invariant passes <= n
        invariant fixedLastTime == start + passes as real * fixedDeltaTime
        invariant deltaFixedTime == time - fixedLastTime
        invariant events == FixedPasses(scenes, start, fixedDeltaTime, passes)
        invariant lastTime == old(lastTime)
        invariant |scenes| == n + 2
        decreases n - passes
      {
        GuardIffPassesLeft(time - start, fixedDeltaTime, passes);
        assert (passes + 1) as real * fixedDeltaTime == passes as real * fixedDeltaTime + fixedDeltaTime;
        fixedLastTime := fixedLastTime + fixedDeltaTime;
        var pass := FixedUpdate(fixedLastTime, fixedDeltaTime, scenes[passes]);
        assert FixedPasses(scenes, start, fixedDeltaTime, passes + 1) == events + pass;
        events := events + pass;
        deltaFixedTime := deltaFixedTime - fixedDeltaTime;
        passes := passes + 1;
      }
      GuardIffPassesLeft(time - start, fixedDeltaTime, passes);
      assert passes == n;
      assert fixedLastTime == start + n as real * fixedDeltaTime;
      if start <= time {
        LeftoverBelowStep(time - start, fixedDeltaTime);
      }

      ghost var fixedPart := events;
      deltaTime := time - lastTime;
      lastTime := time;
      var updates := Update(time, deltaTime, scenes[passes]);
      var renders := Render(time, deltaTime, scenes[passes + 1]);
      events := events + updates + renders;
      assert fixedPart == FixedPasses(scenes, start, fixedDeltaTime, PassCount(time - start, fixedDeltaTime));
      assert updates == ObjectCalls(UpdateHook, Objects(scenes[n]), time, time - old(lastTime));
      assert renders == ObjectCalls(RenderHook, Objects(scenes[n + 1]), time, time - old(lastTime));
    }

    /** `fixedUpdate`: every object's `fixedUpdate(t, dt)` in order, then one collision check. */
    method FixedUpdate(t: real, dt: real, scene: CurrentScene) returns (events: seq<Event>)
      ensures events == FixedPass(scene, t, dt)
      ensures |events| == |Objects(scene)| + 1 && events[|events| - 1] == CheckCollisions
      ensures scene.NoScene? ==> events == [CheckCollisions]
    {
      events := ForEachObject(FixedUpdateHook, t, dt, scene);
      ObjectCallsPointwise(FixedUpdateHook, Objects(scene), t, dt);
      events := events + [CheckCollisions];
    }

    /** `update`: every object's `update(t, dt)` in order; nothing without a scene. */
    method Update(t: real, dt: real, scene: CurrentScene) returns (events: seq<Event>)
      ensures events == ObjectCalls(UpdateHook, Objects(scene), t, dt)
      ensures scene.NoScene? ==> events == []
    {
      events := ForEachObject(UpdateHook, t, dt, scene);
      ObjectCallsPointwise(UpdateHook, Objects(scene), t, dt);
    }

    /** `render` (less the screen clear): every object's `render(t, dt)` in order; nothing without a scene. */
    method Render(t: real, dt: real, scene: CurrentScene) returns (events: seq<Event>)
      ensures events == ObjectCalls(RenderHook, Objects(scene), t, dt)
      ensures scene.NoScene? ==> events == []
    {
      events := ForEachObject(RenderHook, t, dt, scene);
      ObjectCallsPointwise(RenderHook, Objects(scene), t, dt);
    }

    /** The `forEach` over the current scene's game objects shared by the three phases. */
    method ForEachObject(hook: Hook, t: real, dt: real, scene: CurrentScene) returns (events: seq<Event>)
      ensures |events| == |Objects(scene)|
      ensures forall i :: 0 <= i < |events| ==> events[i] == ObjectCall(hook, Objects(scene)[i], t, dt)
    {
      events := [];
      if scene.Scene? {
        var objs := scene.gameObjects;
        for i := 0 to |objs|
          invariant |events| == i
          invariant forall m :: 0 <= m < i ==> events[m] == ObjectCall(hook, objs[m], t, dt)
        {
          events := events + [ObjectCall(hook, objs[i], t, dt)];
        }
      }
    }
  }
}
