/** The time checks of the generation gate in the `useEffect`
    (src/App.tsx:295-318) and the counter updates of `generateQRCode`
    (src/App.tsx:327-329), as functions on the two rate-limiting state
    fields. Times are milliseconds, as `Date.now()` returns them. */
module RateGate {

  const WindowMs := 60000
  const MaxPerWindow := 30
  const MinIntervalMs := 100

  /** The state fields `lastGenerationTime` and `generationCount`. */
  datatype Quota = Quota(lastGenerationTime: int, generationCount: nat)

  /** What one run of the effect did. `Deferred(d)` stands for the
      `setTimeout(generateQRCode, d)` call; the timer firing is not part of
      the effect. */
  datatype GateOutcome = Cleared | RateLimited | Deferred(delayMs: int) | Generated

  /** The gate's time checks, reached once the input is acceptable. The
      rate limit holds back any generation while 30 or more have been counted
      and less than a minute has passed since the last one; a generation
      directly follows only when at least 100 ms have passed; an early one is
      deferred until 100 ms after the last generation. */
  function TimeGate(q: Quota, now: int): (o: GateOutcome)
    ensures o != Cleared
    ensures o == RateLimited <==>
              q.generationCount >= MaxPerWindow && now - q.lastGenerationTime < WindowMs
    ensures o.Deferred? ==>
              && now - q.lastGenerationTime < MinIntervalMs
              && now + o.delayMs == q.lastGenerationTime + MinIntervalMs
              && o.delayMs > 0
    ensures o == Generated ==>
              && now - q.lastGenerationTime >= MinIntervalMs
              && (q.generationCount < MaxPerWindow || now - q.lastGenerationTime >= WindowMs)
  {
    var elapsed := now - q.lastGenerationTime;
    if q.generationCount >= MaxPerWindow && elapsed < WindowMs then RateLimited
    else if elapsed < MinIntervalMs then Deferred(MinIntervalMs - elapsed)
    else Generated
  }

  /** The effect's reset (src/App.tsx:299-301) followed by the two updates
      of `generateQRCode`: the last generation is now, and the count restarts
      at one after a quiet period of more than a minute, else grows by one. */
  function AfterGeneration(q: Quota, now: int): (q': Quota)
    ensures q'.lastGenerationTime == now
    ensures now - q.lastGenerationTime > WindowMs ==> q'.generationCount == 1
    ensures now - q.lastGenerationTime <= WindowMs ==> q'.generationCount == q.generationCount + 1
  {
    var count := if now - q.lastGenerationTime > WindowMs then 0 else q.generationCount;
    Quota(now, count + 1)
  }

  /** Exactly one minute after the last generation the count is neither
      reset nor does it block: generation goes ahead and the count grows. */
  lemma ExactlyOneMinute(q: Quota, now: int)
    requires now - q.lastGenerationTime == WindowMs
    ensures TimeGate(q, now) == Generated
    ensures AfterGeneration(q, now).generationCount == q.generationCount + 1
  {
  }

  /** The number of generations the gate lets through when the effect runs,
      with acceptable input, at each time of ts in turn. A run that does not
      generate leaves the quota as it was. */
  function Generations(q: Quota, ts: seq<int>): nat
    decreases |ts|
  {
    if ts == [] then 0
    else if TimeGate(q, ts[0]) == Generated then 1 + Generations(AfterGeneration(q, ts[0]), ts[1..])
    else Generations(q, ts[1..])
  }

  /** Once a generation lies inside a window shorter than a minute, the
      gate lets through no more than the rest of the 30 inside it. */
  lemma {:induction false} GenerationsAfterOneInWindow(q: Quota, ts: seq<int>, start: int)
    requires start <= q.lastGenerationTime < start + WindowMs
    requires forall i :: 0 <= i < |ts| ==> start <= ts[i] < start + WindowMs
    ensures Generations(q, ts) <= if q.generationCount >= MaxPerWindow then 0 else MaxPerWindow - q.generationCount
    decreases |ts|
  {
    if ts != [] {
      assert start <= ts[0] < start + WindowMs;
      assert forall i :: 0 <= i < |ts[1..]| ==> ts[1..][i] == ts[i + 1];
      if TimeGate(q, ts[0]) == Generated {
        var q' := AfterGeneration(q, ts[0]);
        assert q'.generationCount == q.generationCount + 1;
        GenerationsAfterOneInWindow(q', ts[1..], start);
      } else {
        GenerationsAfterOneInWindow(q, ts[1..], start);
      }
    }
  }

  /** The gate lets through at most 30 generations in any window shorter
      than a minute, whatever the quota was before it. Deferred generations
      are not counted: `generateQRCode` itself checks nothing. */
  lemma {:induction false} AtMostThirtyPerWindow(q: Quota, ts: seq<int>, start: int)
    requires forall i :: 0 <= i < |ts| ==> start <= ts[i] < start + WindowMs
    ensures Generations(q, ts) <= MaxPerWindow
    decreases |ts|
  {
    if ts != [] {
      assert forall i :: 0 <= i < |ts[1..]| ==> ts[1..][i] == ts[i + 1];
      if TimeGate(q, ts[0]) == Generated {
        var q' := AfterGeneration(q, ts[0]);
        assert start <= q'.lastGenerationTime < start + WindowMs;
        GenerationsAfterOneInWindow(q', ts[1..], start);
      } else {
        AtMostThirtyPerWindow(q, ts[1..], start);
      }
    }
  }
}
