/**
 * The FPS text of the score panel
 * (`createScorePanel` in src/doodle-jump/scenes/DoodleJumpSceneContent.ts).
 *
 * A text-writer closure captures `lastUpdateTime` and `frameCount`. Each call,
 * given the time in whole milliseconds, either counts one more frame and keeps
 * the current text, or, once at least 1000 ms have passed since the last
 * publication, publishes the count as `FPS: <count>` and starts a new window.
 */
module FpsCounter {

  /** Initial text of the score renderer. */
  const ScoreInitialText: string := "Score: 0"

  /** Initial text of the FPS renderer. */
  const FpsInitialText: string := "FPS: 0"

  /** Length of a counting window, in milliseconds. */
  const PublishInterval: int := 1000

  predicate IsDigit(c: char)
  {
    '0' <= c <= '9'
  }

  function DigitChar(d: nat): (c: char)
    requires d < 10
    ensures IsDigit(c) && c as int - '0' as int == d
  {
    ('0' as int + d) as char
  }

  /** A count written in decimal, as JavaScript's number-to-string conversion writes it. */
  function NatToString(n: nat): (s: string)
    ensures |s| >= 1
    ensures forall i :: 0 <= i < |s| ==> IsDigit(s[i])
    ensures s[0] == '0' ==> n == 0
  {
    if n < 10 then [DigitChar(n)] else NatToString(n / 10) + [DigitChar(n % 10)]
  }

  /** The value of a string of decimal digits. */
  function ParseDecimal(s: string): nat
    requires forall i :: 0 <= i < |s| ==> IsDigit(s[i])
  {
    if s == [] then 0
    else
      assert IsDigit(s[|s| - 1]);
      ParseDecimal(s[..|s| - 1]) * 10 + (s[|s| - 1] as int - '0' as int)
  }

  /** Reading the decimal text of a count back gives the count. */
  lemma {:induction false} NatToStringRoundTrip(n: nat)
    ensures ParseDecimal(NatToString(n)) == n
  {
    var s := NatToString(n);
    if n >= 10 {
      NatToStringRoundTrip(n / 10);
      assert s[..|s| - 1] == NatToString(n / 10);
    }
  }

  /** The text published for a count: `'FPS: ' + count`. */
  function FpsText(count: nat): (s: string)
    ensures |s| > 5 && s[..5] == "FPS: "
    ensures forall i :: 5 <= i < |s| ==> IsDigit(s[i])
    ensures ParseDecimal(s[5..]) == count
  {
    var digits := NatToString(count);
    NatToStringRoundTrip(count);
    assert ("FPS: " + digits)[5..] == digits;
    "FPS: " + digits
  }

  /** The FPS text starts as what publishing a count of zero would write. */
  lemma InitialTextIsZeroCount()
    ensures FpsInitialText == FpsText(0)
  {
  }

  /** The two captured variables. */
  datatype FpsState = FpsState(lastUpdateTime: int, frameCount: nat)

  /** One call of the closure at time `now` while the renderer shows `currentText`: the new state and the text returned. */
  function Tick(s: FpsState, now: int, currentText: string): (FpsState, string)
  {
    if now - s.lastUpdateTime >= PublishInterval then (FpsState(now, 0), FpsText(s.frameCount))
    else (FpsState(s.lastUpdateTime, s.frameCount + 1), currentText)
  }

  /** The state after calls at the times `times`, in order. */
  function Run(s: FpsState, times: seq<int>): FpsState
  {
    if times == [] then s
    else Tick(Run(s, times[..|times| - 1]), times[|times| - 1], "").0
  }

  ghost predicate NonDecreasing(times: seq<int>)
  {
    forall i, j :: 0 <= i < j < |times| ==> times[i] <= times[j]
  }

  /** The captured state never depends on the text the renderer shows. */
  lemma TickStateIgnoresText(s: FpsState, now: int, a: string, b: string)
    ensures Tick(s, now, a).0 == Tick(s, now, b).0
  {
  }

  /**
   * With non-decreasing times none earlier than the start, `lastUpdateTime`
   * stays between its start value and the latest time seen.
   */
  lemma {:induction false} RunBounds(s: FpsState, times: seq<int>)
    requires NonDecreasing(times)
    requires forall i :: 0 <= i < |times| ==> s.lastUpdateTime <= times[i]
    ensures s.lastUpdateTime <= Run(s, times).lastUpdateTime
    ensures |times| > 0 ==> Run(s, times).lastUpdateTime <= times[|times| - 1]
  {
    if |times| > 1 {
      RunBounds(s, times[..|times| - 1]);
    }
  }

  /**
   * `lastUpdateTime` never decreases from one call to a later one, whatever the
   * call times: a publication only replaces it by a time at least 1000 ms later.
   */
  lemma {:induction false} LastUpdateTimeMonotone(s: FpsState, times: seq<int>, i: nat, j: nat)
    requires i <= j <= |times|
    ensures Run(s, times[..i]).lastUpdateTime <= Run(s, times[..j]).lastUpdateTime
    decreases j
  {
    if i < j {
      LastUpdateTimeMonotone(s, times, i, j - 1);
      var prefix := times[..j];
      assert prefix[..j - 1] == times[..j - 1];
    }
  }

  /** Calls within the window only count frames: each adds one and keeps the window's start. */
  lemma {:induction false} CountingWithinWindow(s: FpsState, times: seq<int>)
    requires forall i :: 0 <= i < |times| ==> times[i] - s.lastUpdateTime < PublishInterval
    ensures Run(s, times) == FpsState(s.lastUpdateTime, s.frameCount + |times|)
  {
    if times != [] {
      CountingWithinWindow(s, times[..|times| - 1]);
    }
  }

  /**
   * The count a call publishes is the number of calls since the window
   * started, not counting the publishing call itself.
   */
  lemma PublishesFramesOfWindow(start: int, times: seq<int>, now: int, currentText: string)
    requires forall i :: 0 <= i < |times| ==> times[i] - start < PublishInterval
    requires now - start >= PublishInterval
    ensures Tick(Run(FpsState(start, 0), times), now, currentText) == (FpsState(now, 0), FpsText(|times|))
  {
    var before := Run(FpsState(start, 0), times);
    CountingWithinWindow(FpsState(start, 0), times);
    assert before == FpsState(start, |times|);
  }

  /** The closure and the two variables it captures. */
  class FpsCounter {
    var lastUpdateTime: int
    var frameCount: nat

    /** Created at time `createdAt` (`Date.now()`), with no frame counted. */
    constructor (createdAt: int)
      ensures lastUpdateTime == createdAt && frameCount == 0
    {
      lastUpdateTime := createdAt;
      frameCount := 0;
    }

    function State(): FpsState
      reads this
    {
      FpsState(lastUpdateTime, frameCount)
    }

    /** One call of the closure at time `now` (`Date.now()`) while the renderer shows `currentText`. */
    method Write(now: int, currentText: string) returns (text: string)
      modifies this
      ensures (State(), text) == Tick(old(State()), now, currentText)
      ensures now - old(lastUpdateTime) < PublishInterval ==>
                frameCount == old(frameCount) + 1 && lastUpdateTime == old(lastUpdateTime) && text == currentText
      ensures now - old(lastUpdateTime) >= PublishInterval ==>
                text == FpsText(old(frameCount)) && frameCount == 0 && lastUpdateTime == now
    {
      var currentTime := now;
      var deltaTime := currentTime - lastUpdateTime;
      if deltaTime >= PublishInterval {
        lastUpdateTime := currentTime;
        var fps := frameCount;
        frameCount := 0;
        return "FPS: " + NatToString(fps);
      }
      frameCount := frameCount + 1;
      return currentText;
    }
  }
}
