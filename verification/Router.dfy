/** Task-level routing: ordered failover over a circuit breaker per provider. */
module Router {
  import opened Sequences

  // ------------------------------------------------------------ the breaker

  datatype Settings = Settings(threshold: int, resetSeconds: real) {
    /** A threshold below one opens on the first failure, like one. */
    function Limit(): (n: nat)
      ensures n >= 1
    {
      if threshold < 1 then 1 else threshold
    }
  }

  datatype BreakerState = BreakerState(failures: nat, openedAt: Option<real>) {
    function Asked(s: Settings, now: real): BreakerState {
      if openedAt.Some? && now - openedAt.value >= s.resetSeconds then BreakerState(0, None) else this
    }

    predicate Refuses(s: Settings, now: real) {
      openedAt.Some? && now - openedAt.value < s.resetSeconds
    }

    function Failed(s: Settings, now: real): BreakerState {
      BreakerState(failures + 1, if failures + 1 >= s.threshold then Some(now) else openedAt)
    }
  }

  const CLOSED := BreakerState(0, None)

  /** `opened_at` is set exactly when the failure count has reached the threshold. */
  predicate Consistent(s: Settings, b: BreakerState) {
    b.openedAt.Some? <==> b.failures >= s.Limit()
  }

  class Breaker {
    const settings: Settings
    var failures: nat
    var openedAt: Option<real>

    function State(): BreakerState
      reads this
    {
      BreakerState(failures, openedAt)
    }

    constructor (settings: Settings)
      ensures this.settings == settings && State() == CLOSED
    {
      this.settings, failures, openedAt := settings, 0, None;
    }

    method IsOpen(now: real) returns (open: bool)
      modifies this
      ensures open <==> old(State()).Refuses(settings, now)
      ensures State() == old(State()).Asked(settings, now)
    {
      if openedAt.None? {
        return false;
      }
      if now - openedAt.value >= settings.resetSeconds {
        openedAt, failures := None, 0;
        return false;
      }
      return true;
    }

    method RecordSuccess()
      modifies this
      ensures State() == CLOSED
    {
      failures, openedAt := 0, None;
    }

    method RecordFailure(now: real)
      modifies this
      ensures State() == old(State()).Failed(settings, now)
    {
      failures := failures + 1;
      if failures >= settings.threshold {
        openedAt := Some(now);
      }
    }
  }

  // ------------------------------------------------------------ one provider's history

  datatype Outcome = Success(completion: Completion) | Transient | Fatal(error: string)

  datatype Completion = Completion(
    text: string, provider: string, model: string, inputTokens: nat, outputTokens: nat,
    cachedTokens: nat, cacheWriteTokens: nat, degraded: bool, stopReason: Option<string>)

  /** One attempt at a candidate: the clock when its breaker is asked, what the
      provider would do, and the clock when that is recorded. */
  datatype Probe = Probe(asked: real, outcome: Outcome, ended: real)

  /** What an attempt leaves of the provider's breaker. */
  function After(s: Settings, b: BreakerState, p: Probe): BreakerState {
    var asked := b.Asked(s, p.asked);
    if b.Refuses(s, p.asked) then asked
    else match p.outcome
      case Success(_) => CLOSED
      case Transient => asked.Failed(s, p.ended)
      case Fatal(_) => asked
  }

  function Replay(s: Settings, b: BreakerState, probes: seq<Probe>): BreakerState {
    if probes == [] then b
    else After(s, Replay(s, b, probes[..|probes| - 1]), probes[|probes| - 1])
  }

  /** An attempt that reaches the provider and fails transiently. */
  predicate FailsOn(s: Settings, b: BreakerState, p: Probe) {
    !b.Refuses(s, p.asked) && p.outcome.Transient?
  }

  /** The calls that reached the provider and failed transiently. */
  function FailingCalls(s: Settings, b: BreakerState, probes: seq<Probe>): nat {
    if probes == [] then 0
    else
      var before := probes[..|probes| - 1];
      FailingCalls(s, b, before) + (if FailsOn(s, Replay(s, b, before), probes[|probes| - 1]) then 1 else 0)
  }

  lemma ReplayAppend(s: Settings, b: BreakerState, probes: seq<Probe>, p: Probe)
    ensures Replay(s, b, probes + [p]) == After(s, Replay(s, b, probes), p)
    ensures FailingCalls(s, b, probes + [p])
         == FailingCalls(s, b, probes) + (if FailsOn(s, Replay(s, b, probes), p) then 1 else 0)
  {
    assert (probes + [p])[..|probes|] == probes;
  }

  lemma {:induction false} ReplayStaysConsistent(s: Settings, b: BreakerState, probes: seq<Probe>)
    requires Consistent(s, b)
    ensures Consistent(s, Replay(s, b, probes))
  {
    if probes != [] {
      ReplayStaysConsistent(s, b, probes[..|probes| - 1]);
    }
  }

  /** Clock readings lie in [from, to] and never go back. */
  predicate Ordered(probes: seq<Probe>, from: real, to: real) {
    if probes == [] then from <= to
    else
      var last := probes[|probes| - 1];
      last.asked <= last.ended <= to && Ordered(probes[..|probes| - 1], from, last.asked)
  }

  /** No call in the window succeeds. */
  predicate SuccessFree(s: Settings, b: BreakerState, probes: seq<Probe>) {
    probes != [] ==>
      var before, last := probes[..|probes| - 1], probes[|probes| - 1];
      && (Replay(s, b, before).Refuses(s, last.asked) || !last.outcome.Success?)
      && SuccessFree(s, b, before)
  }

  /** k reset windows. */
  function Windows(reset: real, k: nat): real {
    if k == 0 then 0.0 else Windows(reset, k - 1) + reset
  }

  /** `made` failing calls since `start` are paid for by `k` full rounds of the
      limit, each a reset window apart, plus the failures on the counter. */
  predicate PaidFor(s: Settings, b: BreakerState, made: nat, k: nat, start: real, now: real) {
    && Consistent(s, b)
    && start + Windows(s.resetSeconds, k) <= now
    && (match b.openedAt
        case None => made <= Times(s.Limit(), k) + b.failures
        case Some(at) =>
          || (made == 0 && k == 0)
          || (made <= Times(s.Limit(), k + 1) && start + Windows(s.resetSeconds, k) <= at))
  }

  lemma PaidForStep(s: Settings, b: BreakerState, made: nat, k: nat, start: real, p: Probe) returns (k': nat)
    requires s.resetSeconds > 0.0 && PaidFor(s, b, made, k, start, p.asked)
    requires p.asked <= p.ended
    requires b.Refuses(s, p.asked) || !p.outcome.Success?
    ensures PaidFor(s, After(s, b, p), made + (if FailsOn(s, b, p) then 1 else 0), k', start, p.ended)
  {
    k' := if b.openedAt.Some? && !b.Refuses(s, p.asked) && made > 0 then k + 1 else k;
  }

  lemma {:induction false} PaidForRun(s: Settings, b: BreakerState, probes: seq<Probe>, start: real, to: real)
    returns (k: nat)
    requires s.resetSeconds > 0.0 && Consistent(s, b)
    requires Ordered(probes, start, to) && SuccessFree(s, b, probes)
    ensures PaidFor(s, Replay(s, b, probes), FailingCalls(s, b, probes), k, start, to)
  {
    if probes == [] {
      k := 0;
    } else {
      var before, last := probes[..|probes| - 1], probes[|probes| - 1];
      var k0 := PaidForRun(s, b, before, start, last.asked);
      k := PaidForStep(s, Replay(s, b, before), FailingCalls(s, b, before), k0, start, last);
    }
  }

  lemma {:induction false} WindowsSum(reset: real, k: nat)
    ensures Windows(reset, k) == k as real * reset
  {
    if k > 0 {
      WindowsSum(reset, k - 1);
      assert k as real * reset == (k - 1) as real * reset + reset;
    }
  }

  lemma RoundsFit(reset: real, k: nat, window: real)
    requires reset > 0.0 && Windows(reset, k) <= window
    ensures k <= (window / reset).Floor
  {
    WindowsSum(reset, k);
    var fit := window / reset;
    if fit < k as real {
      TimesStrict(reset, fit, k as real);
      assert false;
    }
  }

  lemma TimesStrict(c: real, x: real, y: real)
    requires c > 0.0 && x < y
    ensures x * c < y * c
  {
  }

  /** An outage is cheap. Over any window [from, to] of a sequential run in
      which no call succeeds, whatever state the breaker was in, a provider is
      called and fails at most threshold * (floor((to - from) / reset) + 1)
      times. */
  lemma OutageIsBounded(s: Settings, b: BreakerState, probes: seq<Probe>, from: real, to: real)
    requires s.resetSeconds > 0.0 && Consistent(s, b)
    requires Ordered(probes, from, to) && SuccessFree(s, b, probes)
    ensures FailingCalls(s, b, probes) <= s.Limit() * (((to - from) / s.resetSeconds).Floor + 1)
  {
    var k := PaidForRun(s, b, probes, from, to);
    assert FailingCalls(s, b, probes) <= Times(s.Limit(), k + 1);
    RoundsFit(s.resetSeconds, k, to - from);
    TimesIs(s.Limit(), k + 1);
    TimesMonotone(s.Limit(), k + 1, ((to - from) / s.resetSeconds).Floor + 1);
  }

  /** `n` attempts at one instant against a provider that is down. */
  function Burst(n: nat, at: real): seq<Probe> {
    if n == 0 then [] else Burst(n - 1, at) + [Probe(at, Transient, at)]
  }

  /** A breaker whose window has passed lets a full threshold of calls through,
      not the one trial call its comment promises. */
  lemma HalfOpenLetsThresholdThrough(s: Settings, b: BreakerState, n: nat, at: real)
    requires s.resetSeconds > 0.0 && Consistent(s, b)
    requires b.openedAt.Some? && at - b.openedAt.value >= s.resetSeconds
    ensures FailingCalls(s, b, Burst(n, at)) == if n <= s.Limit() then n else s.Limit()
  {
    BurstFails(s, b, n, at);
  }

  /** The breaker after `n` attempts of a burst that found its window passed. */
  function AfterBurst(s: Settings, b: BreakerState, n: nat, at: real): BreakerState {
    if n == 0 then b else if n < s.Limit() then BreakerState(n, None) else BreakerState(s.Limit(), Some(at))
  }

  lemma BurstStep(s: Settings, b: BreakerState, n: nat, at: real)
    requires s.resetSeconds > 0.0
    requires b.openedAt.Some? && at - b.openedAt.value >= s.resetSeconds
    ensures After(s, AfterBurst(s, b, n, at), Probe(at, Transient, at)) == AfterBurst(s, b, n + 1, at)
    ensures FailsOn(s, AfterBurst(s, b, n, at), Probe(at, Transient, at)) <==> n < s.Limit()
  {
    if n == 0 {
      assert b.Asked(s, at) == CLOSED;
    } else if n >= s.Limit() {
      assert at - at == 0.0;
    }
  }

  lemma {:induction false} BurstFails(s: Settings, b: BreakerState, n: nat, at: real)
    requires s.resetSeconds > 0.0
    requires b.openedAt.Some? && at - b.openedAt.value >= s.resetSeconds
    ensures FailingCalls(s, b, Burst(n, at)) == if n <= s.Limit() then n else s.Limit()
    ensures Replay(s, b, Burst(n, at)) == AfterBurst(s, b, n, at)
  {
    if n > 0 {
      BurstFails(s, b, n - 1, at);
      ReplayAppend(s, b, Burst(n - 1, at), Probe(at, Transient, at));
      BurstStep(s, b, n - 1, at);
    }
  }

  /** How many of some attempts fail transiently, those let through and those
      that would have been. */
  function Transients(probes: seq<Probe>): nat {
    if probes == [] then 0
    else Transients(probes[..|probes| - 1]) + (if probes[|probes| - 1].outcome.Transient? then 1 else 0)
  }

  /** How many of the attempts reach the provider. */
  function Calls(s: Settings, b: BreakerState, probes: seq<Probe>): nat {
    if probes == [] then 0
    else
      var before, last := probes[..|probes| - 1], probes[|probes| - 1];
      Calls(s, b, before) + (if Replay(s, b, before).Refuses(s, last.asked) then 0 else 1)
  }

  /** Attempts made one after another on an open breaker: the first when its
      window has passed, the rest within a window of that one, none of them
      a success. */
  predicate HalfOpenRun(s: Settings, b: BreakerState, probes: seq<Probe>) {
    probes != [] ==>
      var first, last := probes[0], probes[|probes| - 1];
      && b.openedAt.Some? && first.asked - b.openedAt.value >= s.resetSeconds
      && Ordered(probes, first.asked, last.ended)
      && forall p :: p in probes ==> !p.outcome.Success? && p.asked < first.ended + s.resetSeconds
  }

  /** A breaker that has counted `failures` since its window passed, and has
      opened again, no earlier than `since`, once they were enough. */
  predicate Counting(s: Settings, b: BreakerState, failures: nat, since: real) {
    if failures < s.Limit() then b == BreakerState(failures, None)
    else b.openedAt.Some? && b.openedAt.value >= since
  }

  lemma {:induction false} OrderedFrom(probes: seq<Probe>, from: real, to: real)
    requires probes != [] && Ordered(probes, from, to)
    ensures |probes| > 1 ==> probes[0].ended <= probes[|probes| - 1].asked
    decreases |probes|
  {
    if |probes| > 1 {
      var before := probes[..|probes| - 1];
      OrderedFrom(before, from, probes[|probes| - 1].asked);
      assert before[0] == probes[0];
    }
  }

  lemma HalfOpenBefore(s: Settings, b: BreakerState, probes: seq<Probe>)
    requires |probes| > 1 && HalfOpenRun(s, b, probes)
    ensures HalfOpenRun(s, b, probes[..|probes| - 1])
  {
    var before, last := probes[..|probes| - 1], probes[|probes| - 1];
    var from, previous := probes[0].asked, before[|before| - 1];
    assert before[0] == probes[0] && forall p :: p in before ==> p in probes;
    assert Ordered(before, from, last.asked);
    assert Ordered(before[..|before| - 1], from, previous.asked);
    assert Ordered(before, from, previous.ended);
  }

  lemma {:induction false} HalfOpenCounts(s: Settings, b: BreakerState, probes: seq<Probe>)
    requires probes != [] && HalfOpenRun(s, b, probes)
    ensures Counting(s, Replay(s, b, probes), Transients(probes), probes[0].ended)
    decreases |probes|
  {
    var before, last := probes[..|probes| - 1], probes[|probes| - 1];
    assert last in probes;
    if before == [] {
      assert b.Asked(s, last.asked) == CLOSED;
    } else {
      HalfOpenBefore(s, b, probes);
      OrderedFrom(probes, probes[0].asked, last.ended);
      HalfOpenCounts(s, b, before);
    }
  }

  /** What a breaker does once its window has passed, for calls made one after
      another: it lets attempt `k` through exactly when fewer than the limit
      of those before it failed transiently. A request error counts for
      nothing. */
  lemma HalfOpenLetsThroughExactly(s: Settings, b: BreakerState, probes: seq<Probe>, k: nat)
    requires k < |probes| && HalfOpenRun(s, b, probes)
    ensures Replay(s, b, probes[..k]).Refuses(s, probes[k].asked) <==> Transients(probes[..k]) >= s.Limit()
  {
    HalfOpenPrefix(s, b, probes, k + 1);
    if k > 0 {
      HalfOpenPrefix(s, b, probes, k);
      HalfOpenCounts(s, b, probes[..k]);
    }
  }

  lemma {:induction false} HalfOpenPrefix(s: Settings, b: BreakerState, probes: seq<Probe>, n: nat)
    requires 0 < n <= |probes| && HalfOpenRun(s, b, probes)
    ensures HalfOpenRun(s, b, probes[..n])
    decreases |probes|
  {
    if n == |probes| {
      assert probes[..n] == probes;
    } else {
      var before := probes[..|probes| - 1];
      HalfOpenBefore(s, b, probes);
      HalfOpenPrefix(s, b, before, n);
      assert before[..n] == probes[..n];
    }
  }

  lemma {:induction false} TransientsGrow(probes: seq<Probe>)
    requires probes != []
    ensures Transients(probes) >= Transients(probes[..1])
    decreases |probes|
  {
    if |probes| > 1 {
      var before := probes[..|probes| - 1];
      TransientsGrow(before);
      assert before[..1] == probes[..1];
    } else {
      assert probes[..1] == probes;
    }
  }

  /** The promise: after the window one call goes through, and no other until
      it has succeeded. Whatever the attempts, it is kept exactly when nobody
      asks again, or the trial call failed transiently and one failure is the
      limit. */
  lemma {:induction false} OneTrialExactlyWhenItReopens(s: Settings, b: BreakerState, probes: seq<Probe>)
    requires probes != [] && HalfOpenRun(s, b, probes)
    ensures Calls(s, b, probes) <= 1 <==> |probes| == 1 || (probes[0].outcome.Transient? && s.threshold <= 1)
    ensures Calls(s, b, probes) >= 1
    decreases |probes|
  {
    var n := |probes|;
    var before := probes[..n - 1];
    HalfOpenLetsThroughExactly(s, b, probes, n - 1);
    if before == [] {
      assert Calls(s, b, before) == 0;
    } else {
      HalfOpenBefore(s, b, probes);
      OneTrialExactlyWhenItReopens(s, b, before);
      TransientsGrow(before);
      assert before[..1] == [probes[0]];
      assert Transients([probes[0]]) == if probes[0].outcome.Transient? then 1 else 0 by {
        assert [probes[0]][..0] == [];
      }
      if n == 2 {
        assert before == before[..1];
      }
    }
  }

  /** One run that breaks it, at whatever threshold: the trial call ends in a
      request error, and the next call goes through as well. */
  lemma TrialErrorLetsAnotherThrough(s: Settings, b: BreakerState, at: real, error: string)
    requires s.resetSeconds > 0.0
    requires b.openedAt.Some? && at - b.openedAt.value >= s.resetSeconds
    ensures
      var p := Probe(at, Fatal(error), at);
      HalfOpenRun(s, b, [p, p]) && Calls(s, b, [p, p]) == 2
  {
    var p := Probe(at, Fatal(error), at);
    assert [p, p][..1] == [p] && [p][..0] == [];
    assert Ordered([p], at, at) && Ordered([p, p], at, at);
    assert Replay(s, b, [p]) == CLOSED;
    assert Calls(s, b, [p]) == 1;
  }

  lemma {:induction false} ClosedCounts(s: Settings, probes: seq<Probe>)
    requires forall p :: p in probes ==> !p.outcome.Success?
    requires Transients(probes) < s.Limit()
    ensures Replay(s, CLOSED, probes) == BreakerState(Transients(probes), None)
  {
    if probes != [] {
      ClosedCounts(s, probes[..|probes| - 1]);
      assert probes[|probes| - 1] in probes;
    }
  }

  /** Only failures in a row count. Whatever came before, once a call has got
      through and succeeded it takes as many transient failures as the limit
      to have a call refused again. */
  lemma SuccessStartsOver(s: Settings, b: BreakerState, before: seq<Probe>, p: Probe, since: seq<Probe>, now: real)
    requires !Replay(s, b, before).Refuses(s, p.asked) && p.outcome.Success?
    requires (forall q :: q in since ==> !q.outcome.Success?) && Transients(since) < s.Limit()
    ensures !Replay(s, b, before + [p] + since).Refuses(s, now)
  {
    ReplayAppend(s, b, before, p);
    ReplaySplit(s, b, before + [p], since);
    ClosedCounts(s, since);
  }

  // ------------------------------------------------------------ ordered failover

  datatype Candidate = Candidate(provider: string, model: string)

  datatype Task = Task(primary: Candidate, failover: Option<Candidate>) {
    function Candidates(): seq<Candidate> {
      [primary] + (if failover.Some? then [failover.value] else [])
    }
  }

  datatype Reply =
    | Answered(completion: Completion)
    | AllProvidersUnavailable
    | ProviderError(error: string)
    | UnknownTask

  /** A call that reached a provider, and whether it failed transiently. */
  datatype Contact = Contact(provider: string, transient: bool)

  type Breakers = map<string, BreakerState>

  /** `tried` counts the candidates considered, open breakers included. */
  datatype Routed = Routed(reply: Reply, breakers: Breakers, tried: nat, log: seq<Contact>)

  /** The copy a fallback answer is delivered as. It lists the fields one by
      one, and does not list the cache writes. */
  function MarkDegraded(c: Completion): Completion {
    Completion(c.text, c.provider, c.model, c.inputTokens, c.outputTokens, c.cachedTokens, 0, true, c.stopReason)
  }

  /** The copy forgets the cache writes and nothing else, so it is faithful
      exactly when there were none. */
  lemma DegradedCopyIsFaithfulExactlyWithoutCacheWrites(c: Completion)
    ensures MarkDegraded(c) == c.(degraded := true, cacheWriteTokens := 0)
    ensures MarkDegraded(c) == c.(degraded := true) <==> c.cacheWriteTokens == 0
  {
  }

  function Eligible(candidates: seq<Candidate>, excluded: Option<string>): (r: seq<Candidate>)
    ensures forall c :: c in r <==> c in candidates && Some(c.provider) != excluded
  {
    if candidates == [] then []
    else
      (if Some(candidates[0].provider) == excluded then [] else [candidates[0]])
      + Eligible(candidates[1..], excluded)
  }

  /** Exclusion keeps the configured order: what is kept of the candidates up
      to any point comes before what is kept of those after it. */
  lemma {:induction false} EligibleInOrder(before: seq<Candidate>, after: seq<Candidate>, excluded: Option<string>)
    ensures Eligible(before + after, excluded) == Eligible(before, excluded) + Eligible(after, excluded)
  {
    if before == [] {
      assert before + after == after;
    } else {
      assert (before + after)[1..] == before[1..] + after;
      EligibleInOrder(before[1..], after, excluded);
    }
  }

  predicate Supplied(candidates: seq<Candidate>, bs: Breakers) {
    forall c :: c in candidates ==> c.provider in bs
  }

  /** The loop over the candidates, from index `i` on. */
  function Route(
    s: Settings, bs: Breakers, candidates: seq<Candidate>, probes: seq<Probe>, i: nat, log: seq<Contact>): Routed
    requires i <= |candidates| == |probes| && Supplied(candidates, bs)
    decreases |candidates| - i
  {
    if i == |candidates| then Routed(AllProvidersUnavailable, bs, i, log)
    else
      var name := candidates[i].provider;
      var after := bs[name := After(s, bs[name], probes[i])];
      if bs[name].Refuses(s, probes[i].asked) then Route(s, after, candidates, probes, i + 1, log)
      else
        match probes[i].outcome
        case Transient => Route(s, after, candidates, probes, i + 1, log + [Contact(name, true)])
        case Fatal(e) => Routed(ProviderError(e), after, i + 1, log + [Contact(name, false)])
        case Success(c) =>
          Routed(Answered(if i == 0 then c else MarkDegraded(c)), after, i + 1, log + [Contact(name, false)])
  }

  class Router {
    const settings: Settings
    const tasks: map<string, Task>
    const breakers: map<string, Breaker>

    /** Every configured provider has a breaker of its own. */
    ghost predicate Valid() {
      && (forall t :: t in tasks ==> forall c :: c in tasks[t].Candidates() ==> c.provider in breakers)
      && (forall p :: p in breakers ==> breakers[p].settings == settings)
      && (forall p, q :: p in breakers && q in breakers && p != q ==> breakers[p] != breakers[q])
    }

    ghost function States(): Breakers
      reads breakers.Values
    {
      map p | p in breakers :: breakers[p].State()
    }

    constructor (settings: Settings, tasks: map<string, Task>, breakers: map<string, Breaker>)
      requires forall t :: t in tasks ==> forall c :: c in tasks[t].Candidates() ==> c.provider in breakers
      requires forall p :: p in breakers ==> breakers[p].settings == settings
      requires forall p, q :: p in breakers && q in breakers && p != q ==> breakers[p] != breakers[q]
      ensures Valid() && this.settings == settings && this.tasks == tasks && this.breakers == breakers
    {
      this.settings, this.tasks, this.breakers := settings, tasks, breakers;
    }

    /** Asks the breaker and, when it lets the call through, records what the
        provider did. */
    method Attempt(name: string, probe: Probe) returns (open: bool)
      requires Valid() && name in breakers
      modifies breakers.Values
      ensures open <==> old(States())[name].Refuses(settings, probe.asked)
      ensures States() == old(States())[name := After(settings, old(States())[name], probe)]
    {
      var breaker := breakers[name];
      open := breaker.IsOpen(probe.asked);
      if !open {
        match probe.outcome {
          case Transient => breaker.RecordFailure(probe.ended);
          case Success(_) => breaker.RecordSuccess();
          case Fatal(_) =>
        }
      }
    }

    /** `probes` is what the clock and the providers do, candidate by candidate
        after exclusion. */
    method Complete(task: string, excluded: Option<string>, probes: seq<Probe>) returns (reply: Reply)
      requires Valid()
      requires task in tasks ==> |probes| == |Eligible(tasks[task].Candidates(), excluded)|
      modifies breakers.Values
      ensures task !in tasks ==> reply == UnknownTask && States() == old(States())
      ensures task in tasks ==>
        var candidates := Eligible(tasks[task].Candidates(), excluded);
        && Supplied(candidates, old(States()))
        && reply == Route(settings, old(States()), candidates, probes, 0, []).reply
        && States() == Route(settings, old(States()), candidates, probes, 0, []).breakers
    {
      if task !in tasks {
        return UnknownTask;
      }
      var candidates := Eligible(tasks[task].Candidates(), excluded);
      ghost var states, log := States(), [];
      for i := 0 to |candidates|
        invariant states == States() && Supplied(candidates, states)
        invariant Route(settings, states, candidates, probes, i, log)
               == Route(settings, old(States()), candidates, probes, 0, [])
      {
        var name := candidates[i].provider;
        var open := Attempt(name, probes[i]);
        states := states[name := After(settings, states[name], probes[i])];
        assert states == States();
        if !open {
          match probes[i].outcome {
            case Success(completion) => return Answered(if i == 0 then completion else MarkDegraded(completion));
            case Fatal(e) => return ProviderError(e);
            case Transient => log := log + [Contact(name, true)];
          }
        }
      }
      return AllProvidersUnavailable;
    }
  }

  // ------------------------------------------------------------ failover refines a simple rule

  /** The breakers after the first `n` attempts, when none of them settles the request. */
  function StatesAt(s: Settings, bs: Breakers, candidates: seq<Candidate>, probes: seq<Probe>, n: nat): (r: Breakers)
    requires n <= |candidates| == |probes| && Supplied(candidates, bs)
    ensures r.Keys == bs.Keys
  {
    if n == 0 then bs
    else
      var before := StatesAt(s, bs, candidates, probes, n - 1);
      var name := candidates[n - 1].provider;
      before[name := After(s, before[name], probes[n - 1])]
  }

  /** Candidate `i` settles the request: its breaker, as the earlier attempts
      left it, lets it through, and it does not fail transiently. */
  predicate Settles(s: Settings, bs: Breakers, candidates: seq<Candidate>, probes: seq<Probe>, i: nat)
    requires i < |candidates| == |probes| && Supplied(candidates, bs)
  {
    && !StatesAt(s, bs, candidates, probes, i)[candidates[i].provider].Refuses(s, probes[i].asked)
    && !probes[i].outcome.Transient?
  }

  /** The calls made by the first `n` attempts. */
  function LogAt(s: Settings, bs: Breakers, candidates: seq<Candidate>, probes: seq<Probe>, n: nat): seq<Contact>
    requires n <= |candidates| == |probes| && Supplied(candidates, bs)
  {
    if n == 0 then []
    else
      var name := candidates[n - 1].provider;
      var refused := StatesAt(s, bs, candidates, probes, n - 1)[name].Refuses(s, probes[n - 1].asked);
      LogAt(s, bs, candidates, probes, n - 1)
      + (if refused then [] else [Contact(name, probes[n - 1].outcome.Transient?)])
  }

  /** The simple rule: the first candidate that settles decides; when none
      does, nobody is available. */
  ghost predicate FirstToSettle(
    s: Settings, bs: Breakers, candidates: seq<Candidate>, probes: seq<Probe>, r: Routed)
    requires |candidates| == |probes| && Supplied(candidates, bs)
  {
    && r.tried <= |candidates|
    && r.breakers == StatesAt(s, bs, candidates, probes, r.tried)
    && r.log == LogAt(s, bs, candidates, probes, r.tried)
    && if r.reply == AllProvidersUnavailable then
         && r.tried == |candidates|
         && NoneSettles(s, bs, candidates, probes, r.tried)
       else
         && r.tried > 0
         && NoneSettles(s, bs, candidates, probes, r.tried - 1)
         && Settles(s, bs, candidates, probes, r.tried - 1)
         && match probes[r.tried - 1].outcome
            case Success(c) => r.reply == Answered(if r.tried == 1 then c else MarkDegraded(c))
            case Fatal(e) => r.reply == ProviderError(e)
            case Transient => false
  }

  /** None of the first `n` candidates settles the request. */
  ghost predicate NoneSettles(s: Settings, bs: Breakers, candidates: seq<Candidate>, probes: seq<Probe>, n: nat)
    requires n <= |candidates| == |probes| && Supplied(candidates, bs)
  {
    forall j :: 0 <= j < n ==> !Settles(s, bs, candidates, probes, j)
  }

  lemma {:induction false} RouteFrom(s: Settings, bs: Breakers, candidates: seq<Candidate>, probes: seq<Probe>, i: nat)
    requires i <= |candidates| == |probes| && Supplied(candidates, bs)
    requires NoneSettles(s, bs, candidates, probes, i)
    ensures
      var now := StatesAt(s, bs, candidates, probes, i);
      FirstToSettle(s, bs, candidates, probes,
                    Route(s, now, candidates, probes, i, LogAt(s, bs, candidates, probes, i)))
    decreases |candidates| - i
  {
    if i == |candidates| {
      RouteEnds(s, bs, candidates, probes);
    } else if Settles(s, bs, candidates, probes, i) {
      RouteSettles(s, bs, candidates, probes, i);
    } else {
      RouteGoesOn(s, bs, candidates, probes, i);
      NoneSettlesNext(s, bs, candidates, probes, i);
      RouteFrom(s, bs, candidates, probes, i + 1);
    }
  }

  lemma NoneSettlesNext(s: Settings, bs: Breakers, candidates: seq<Candidate>, probes: seq<Probe>, i: nat)
    requires i < |candidates| == |probes| && Supplied(candidates, bs)
    requires NoneSettles(s, bs, candidates, probes, i) && !Settles(s, bs, candidates, probes, i)
    ensures NoneSettles(s, bs, candidates, probes, i + 1)
  {
  }

  lemma RouteEnds(s: Settings, bs: Breakers, candidates: seq<Candidate>, probes: seq<Probe>)
    requires |candidates| == |probes| && Supplied(candidates, bs)
    requires NoneSettles(s, bs, candidates, probes, |candidates|)
    ensures
      var n := |candidates|;
      FirstToSettle(s, bs, candidates, probes,
                    Route(s, StatesAt(s, bs, candidates, probes, n), candidates, probes, n,
                          LogAt(s, bs, candidates, probes, n)))
  {
  }

  lemma RouteGoesOn(s: Settings, bs: Breakers, candidates: seq<Candidate>, probes: seq<Probe>, i: nat)
    requires i < |candidates| == |probes| && Supplied(candidates, bs)
    requires !Settles(s, bs, candidates, probes, i)
    ensures
      var now, next := StatesAt(s, bs, candidates, probes, i), StatesAt(s, bs, candidates, probes, i + 1);
      Route(s, now, candidates, probes, i, LogAt(s, bs, candidates, probes, i))
      == Route(s, next, candidates, probes, i + 1, LogAt(s, bs, candidates, probes, i + 1))
  {
    var log := LogAt(s, bs, candidates, probes, i);
    var now, name := StatesAt(s, bs, candidates, probes, i), candidates[i].provider;
    assert StatesAt(s, bs, candidates, probes, i + 1) == now[name := After(s, now[name], probes[i])];
    assert log + [] == log;
  }

  lemma RouteSettles(s: Settings, bs: Breakers, candidates: seq<Candidate>, probes: seq<Probe>, i: nat)
    requires i < |candidates| == |probes| && Supplied(candidates, bs)
    requires NoneSettles(s, bs, candidates, probes, i) && Settles(s, bs, candidates, probes, i)
    ensures
      var now := StatesAt(s, bs, candidates, probes, i);
      FirstToSettle(s, bs, candidates, probes,
                    Route(s, now, candidates, probes, i, LogAt(s, bs, candidates, probes, i)))
  {
    var now := StatesAt(s, bs, candidates, probes, i);
    var name := candidates[i].provider;
    assert StatesAt(s, bs, candidates, probes, i + 1) == now[name := After(s, now[name], probes[i])];
  }

  /** One request, however its clock and providers behave, is settled by the
      first eligible candidate that can settle it. */
  lemma FailoverIsFirstToSettle(s: Settings, bs: Breakers, candidates: seq<Candidate>, probes: seq<Probe>)
    requires |candidates| == |probes| && Supplied(candidates, bs)
    ensures FirstToSettle(s, bs, candidates, probes, Route(s, bs, candidates, probes, 0, []))
  {
    RouteFrom(s, bs, candidates, probes, 0);
  }

  // ------------------------------------------------------------ the primary, then the failover

  predicate Excluded(c: Candidate, excluded: Option<string>) {
    excluded == Some(c.provider)
  }

  /** The task's failover, unless there is none or it is excluded. */
  predicate HasFailover(task: Task, excluded: Option<string>) {
    task.failover.Some? && !Excluded(task.failover.value, excluded)
  }

  /** An attempt that decides a request: it is let through, and does not fail transiently. */
  predicate Decides(s: Settings, b: BreakerState, p: Probe) {
    !b.Refuses(s, p.asked) && !p.outcome.Transient?
  }

  /** What it decides: the completion, marked when it is not from the first
      candidate, or the provider's error. */
  predicate RepliesWith(reply: Reply, p: Probe, first: bool) {
    match p.outcome
    case Success(c) => reply == Answered(if first then c else c.(degraded := true, cacheWriteTokens := 0))
    case Fatal(e) => reply == ProviderError(e)
    case Transient => false
  }

  /** A task is its primary first, then its failover. The primary decides the
      request if it can; otherwise the failover does, degraded; and with the
      primary excluded the failover is the first choice, and is not degraded.
      When nobody left can decide it, nobody is available. */
  lemma PrimaryThenFailover(s: Settings, bs: Breakers, task: Task, excluded: Option<string>, probes: seq<Probe>)
    requires task.primary.provider in bs && (task.failover.Some? ==> task.failover.value.provider in bs)
    requires |probes| == (if Excluded(task.primary, excluded) then 0 else 1)
                         + (if HasFailover(task, excluded) then 1 else 0)
    ensures |Eligible(task.Candidates(), excluded)| == |probes| && Supplied(Eligible(task.Candidates(), excluded), bs)
    ensures
      var r := Route(s, bs, Eligible(task.Candidates(), excluded), probes, 0, []);
      var name := task.primary.provider;
      if !Excluded(task.primary, excluded) then
        if Decides(s, bs[name], probes[0]) then RepliesWith(r.reply, probes[0], true)
        else
          var after := bs[name := After(s, bs[name], probes[0])];
          if HasFailover(task, excluded) && Decides(s, after[task.failover.value.provider], probes[1]) then
            RepliesWith(r.reply, probes[1], false)
          else r.reply == AllProvidersUnavailable
      else if HasFailover(task, excluded) && Decides(s, bs[task.failover.value.provider], probes[0]) then
        RepliesWith(r.reply, probes[0], true)
      else r.reply == AllProvidersUnavailable
  {
    var own := if Excluded(task.primary, excluded) then [] else [task.primary];
    var other := if HasFailover(task, excluded) then [task.failover.value] else [];
    assert Eligible(task.Candidates(), excluded) == own + other by {
      EligibleInOrder([task.primary], if task.failover.Some? then [task.failover.value] else [], excluded);
      assert Eligible([task.primary], excluded) == own;
    }
    RouteOfAtMostTwo(s, bs, own + other, probes);
  }

  lemma RouteOfOne(
    s: Settings, bs: Breakers, candidates: seq<Candidate>, probes: seq<Probe>, i: nat, log: seq<Contact>)
    returns (more: seq<Contact>)
    requires i < |candidates| == |probes| && Supplied(candidates, bs)
    ensures
      var name := candidates[i].provider;
      var reply := Route(s, bs, candidates, probes, i, log).reply;
      if Decides(s, bs[name], probes[i]) then RepliesWith(reply, probes[i], i == 0)
      else
        var after := bs[name := After(s, bs[name], probes[i])];
        reply == Route(s, after, candidates, probes, i + 1, more).reply
  {
    var name := candidates[i].provider;
    more := log;
    if !Decides(s, bs[name], probes[i]) {
      more := if bs[name].Refuses(s, probes[i].asked) then log else log + [Contact(name, true)];
      assert Route(s, bs, candidates, probes, i, log)
          == Route(s, bs[name := After(s, bs[name], probes[i])], candidates, probes, i + 1, more);
    }
  }

  lemma RouteOfAtMostTwo(s: Settings, bs: Breakers, candidates: seq<Candidate>, probes: seq<Probe>)
    requires |candidates| == |probes| <= 2 && Supplied(candidates, bs)
    ensures
      var reply := Route(s, bs, candidates, probes, 0, []).reply;
      if candidates == [] then reply == AllProvidersUnavailable
      else
        var name := candidates[0].provider;
        if Decides(s, bs[name], probes[0]) then RepliesWith(reply, probes[0], true)
        else
          var after := bs[name := After(s, bs[name], probes[0])];
          if |candidates| == 2 && Decides(s, after[candidates[1].provider], probes[1]) then
            RepliesWith(reply, probes[1], false)
          else reply == AllProvidersUnavailable
  {
    if candidates != [] {
      var more := RouteOfOne(s, bs, candidates, probes, 0, []);
      var name := candidates[0].provider;
      if |candidates| == 2 && !Decides(s, bs[name], probes[0]) {
        var after := bs[name := After(s, bs[name], probes[0])];
        var _ := RouteOfOne(s, after, candidates, probes, 1, more);
      }
    }
  }

  // ------------------------------------------------------------ each provider sees its own history

  function Providers(candidates: seq<Candidate>): set<string> {
    set c | c in candidates :: c.provider
  }

  /** The probes of provider `p` among the first `n` candidates. */
  function Own(candidates: seq<Candidate>, probes: seq<Probe>, p: string, n: nat): seq<Probe>
    requires n <= |candidates| == |probes|
  {
    if n == 0 then []
    else Own(candidates, probes, p, n - 1) + (if candidates[n - 1].provider == p then [probes[n - 1]] else [])
  }

  function FailuresOf(log: seq<Contact>, p: string): nat {
    if log == [] then 0
    else FailuresOf(log[..|log| - 1], p) + (if log[|log| - 1] == Contact(p, true) then 1 else 0)
  }

  lemma FailuresOfAppend(log: seq<Contact>, c: Contact, p: string)
    ensures FailuresOf(log + [c], p) == FailuresOf(log, p) + (if c == Contact(p, true) then 1 else 0)
  {
    assert (log + [c])[..|log|] == log;
  }

  lemma {:induction false} OwnState(
    s: Settings, bs: Breakers, candidates: seq<Candidate>, probes: seq<Probe>, p: string, n: nat)
    requires n <= |candidates| == |probes| && Supplied(candidates, bs) && p in bs
    ensures StatesAt(s, bs, candidates, probes, n)[p] == Replay(s, bs[p], Own(candidates, probes, p, n))
  {
    if n > 0 {
      OwnState(s, bs, candidates, probes, p, n - 1);
      var own := Own(candidates, probes, p, n - 1);
      if candidates[n - 1].provider == p {
        ReplayAppend(s, bs[p], own, probes[n - 1]);
      } else {
        assert own + [] == own;
      }
    }
  }

  lemma FailuresStep(
    s: Settings, b: BreakerState, own: seq<Probe>, log: seq<Contact>, name: string, probe: Probe, p: string,
    refused: bool)
    requires FailuresOf(log, p) == FailingCalls(s, b, own)
    requires name == p ==> refused == Replay(s, b, own).Refuses(s, probe.asked)
    ensures FailuresOf(log + (if refused then [] else [Contact(name, probe.outcome.Transient?)]), p)
         == FailingCalls(s, b, own + (if name == p then [probe] else []))
  {
    if refused {
      assert log + [] == log;
    } else {
      FailuresOfAppend(log, Contact(name, probe.outcome.Transient?), p);
    }
    if name == p {
      ReplayAppend(s, b, own, probe);
    } else {
      assert own + [] == own;
    }
  }

  lemma {:induction false} OwnFailures(
    s: Settings, bs: Breakers, candidates: seq<Candidate>, probes: seq<Probe>, p: string, n: nat)
    requires n <= |candidates| == |probes| && Supplied(candidates, bs) && p in bs
    ensures FailuresOf(LogAt(s, bs, candidates, probes, n), p)
         == FailingCalls(s, bs[p], Own(candidates, probes, p, n))
  {
    if n > 0 {
      OwnFailures(s, bs, candidates, probes, p, n - 1);
      OwnState(s, bs, candidates, probes, p, n - 1);
      var name, probe := candidates[n - 1].provider, probes[n - 1];
      var refused := StatesAt(s, bs, candidates, probes, n - 1)[name].Refuses(s, probe.asked);
      var own, log := Own(candidates, probes, p, n - 1), LogAt(s, bs, candidates, probes, n - 1);
      FailuresStep(s, bs[p], own, log, name, probe, p, refused);
      assert Own(candidates, probes, p, n) == own + (if name == p then [probe] else []);
      assert LogAt(s, bs, candidates, probes, n)
          == log + (if refused then [] else [Contact(name, probe.outcome.Transient?)]);
    }
  }

  lemma {:induction false} LogIsOfCandidates(
    s: Settings, bs: Breakers, candidates: seq<Candidate>, probes: seq<Probe>, n: nat)
    requires n <= |candidates| == |probes| && Supplied(candidates, bs)
    ensures |LogAt(s, bs, candidates, probes, n)| <= n
    ensures forall c :: c in LogAt(s, bs, candidates, probes, n) ==> c.provider in Providers(candidates)
  {
    if n > 0 {
      LogIsOfCandidates(s, bs, candidates, probes, n - 1);
      assert candidates[n - 1].provider in Providers(candidates);
    }
  }

  lemma CallsAtMostCandidates(s: Settings, bs: Breakers, candidates: seq<Candidate>, probes: seq<Probe>)
    requires |candidates| == |probes| && Supplied(candidates, bs)
    ensures |Route(s, bs, candidates, probes, 0, []).log| <= |candidates|
  {
    FailoverIsFirstToSettle(s, bs, candidates, probes);
    LogIsOfCandidates(s, bs, candidates, probes, Route(s, bs, candidates, probes, 0, []).tried);
  }

  lemma RouteTracks(s: Settings, bs: Breakers, candidates: seq<Candidate>, probes: seq<Probe>, p: string)
    requires |candidates| == |probes| && Supplied(candidates, bs) && p in bs
    ensures
      var r := Route(s, bs, candidates, probes, 0, []);
      && r.tried <= |candidates| && r.breakers.Keys == bs.Keys
      && r.breakers[p] == Replay(s, bs[p], Own(candidates, probes, p, r.tried))
      && FailuresOf(r.log, p) == FailingCalls(s, bs[p], Own(candidates, probes, p, r.tried))
  {
    FailoverIsFirstToSettle(s, bs, candidates, probes);
    var tried := Route(s, bs, candidates, probes, 0, []).tried;
    OwnState(s, bs, candidates, probes, p, tried);
    OwnFailures(s, bs, candidates, probes, p, tried);
  }

  lemma {:induction false} OwnOfStranger(candidates: seq<Candidate>, probes: seq<Probe>, p: string, n: nat)
    requires n <= |candidates| == |probes| && p !in Providers(candidates)
    ensures Own(candidates, probes, p, n) == []
  {
    if n > 0 {
      assert candidates[n - 1] in candidates;
      OwnOfStranger(candidates, probes, p, n - 1);
    }
  }

  /** An excluded provider is out of reach: no call is made to it and its
      breaker is left alone, whatever happens to the others. */
  lemma ExcludedIsUntouched(
    s: Settings, bs: Breakers, task: Task, excluded: string, probes: seq<Probe>)
    requires Supplied(task.Candidates(), bs) && excluded in bs
    requires |probes| == |Eligible(task.Candidates(), Some(excluded))|
    ensures
      var r := Route(s, bs, Eligible(task.Candidates(), Some(excluded)), probes, 0, []);
      && excluded in r.breakers && r.breakers[excluded] == bs[excluded]
      && forall c :: c in r.log ==> c.provider != excluded
  {
    var candidates := Eligible(task.Candidates(), Some(excluded));
    FailoverIsFirstToSettle(s, bs, candidates, probes);
    var r := Route(s, bs, candidates, probes, 0, []);
    LogIsOfCandidates(s, bs, candidates, probes, r.tried);
    OwnOfStranger(candidates, probes, excluded, r.tried);
    RouteTracks(s, bs, candidates, probes, excluded);
  }

  /** A request error is never failed over. The request ends in one exactly
      when the first candidate to settle it, wherever in the order it stands,
      meets one; then nobody after it is asked, and of its own breaker only a
      window that had passed is closed: no failure is counted. */
  lemma RequestErrorStopsExactly(s: Settings, bs: Breakers, candidates: seq<Candidate>, probes: seq<Probe>)
    requires |candidates| == |probes| && Supplied(candidates, bs)
    ensures
      var r := Route(s, bs, candidates, probes, 0, []);
      && (r.reply.ProviderError? <==>
            exists i: nat :: i < |candidates| && FailsAt(s, bs, candidates, probes, i))
      && forall i: nat :: i < |candidates| && FailsAt(s, bs, candidates, probes, i) ==>
           var before, name := StatesAt(s, bs, candidates, probes, i), candidates[i].provider;
           && r.reply == ProviderError(probes[i].outcome.error) && r.tried == i + 1
           && r.breakers == before[name := before[name].Asked(s, probes[i].asked)]
           && r.log == LogAt(s, bs, candidates, probes, i) + [Contact(name, false)]
  {
    FailoverIsFirstToSettle(s, bs, candidates, probes);
    var r := Route(s, bs, candidates, probes, 0, []);
    if r.reply.ProviderError? {
      assert FailsAt(s, bs, candidates, probes, r.tried - 1);
    }
    forall i: nat | i < |candidates| && FailsAt(s, bs, candidates, probes, i)
      ensures r.tried == i + 1
    {
      assert r.reply != AllProvidersUnavailable;
    }
  }

  /** Candidate `i` is the first to settle the request, with a request error. */
  ghost predicate FailsAt(s: Settings, bs: Breakers, candidates: seq<Candidate>, probes: seq<Probe>, i: nat)
    requires i < |candidates| == |probes| && Supplied(candidates, bs)
  {
    NoneSettles(s, bs, candidates, probes, i) && Settles(s, bs, candidates, probes, i) && probes[i].outcome.Fatal?
  }

  // ------------------------------------------------------------ an outage, request after request

  datatype Request = Request(candidates: seq<Candidate>, probes: seq<Probe>)

  predicate Servable(bs: Breakers, requests: seq<Request>) {
    forall r :: r in requests ==> |r.candidates| == |r.probes| && Supplied(r.candidates, bs)
  }

  /** The router after a sequence of requests, and every call it made. */
  function Serve(s: Settings, bs: Breakers, requests: seq<Request>): (r: (Breakers, seq<Contact>))
    requires Servable(bs, requests)
    ensures r.0.Keys == bs.Keys
    decreases |requests|
  {
    if requests == [] then (bs, [])
    else
      var one := Route(s, bs, requests[0].candidates, requests[0].probes, 0, []);
      RouteKeepsKeys(s, bs, requests[0].candidates, requests[0].probes);
      var more := Serve(s, one.breakers, requests[1..]);
      (more.0, one.log + more.1)
  }

  lemma RouteKeepsKeys(s: Settings, bs: Breakers, candidates: seq<Candidate>, probes: seq<Probe>)
    requires |candidates| == |probes| && Supplied(candidates, bs)
    ensures Route(s, bs, candidates, probes, 0, []).breakers.Keys == bs.Keys
    ensures Route(s, bs, candidates, probes, 0, []).tried <= |candidates|
  {
    FailoverIsFirstToSettle(s, bs, candidates, probes);
  }

  /** Everything provider `p` was asked over those requests, in order. */
  function History(s: Settings, bs: Breakers, requests: seq<Request>, p: string): seq<Probe>
    requires Servable(bs, requests)
    decreases |requests|
  {
    if requests == [] then []
    else
      var r := requests[0];
      RouteKeepsKeys(s, bs, r.candidates, r.probes);
      var one := Route(s, bs, r.candidates, r.probes, 0, []);
      Own(r.candidates, r.probes, p, one.tried) + History(s, one.breakers, requests[1..], p)
  }

  lemma {:induction false} ReplaySplit(s: Settings, b: BreakerState, first: seq<Probe>, rest: seq<Probe>)
    ensures Replay(s, b, first + rest) == Replay(s, Replay(s, b, first), rest)
    ensures FailingCalls(s, b, first + rest)
         == FailingCalls(s, b, first) + FailingCalls(s, Replay(s, b, first), rest)
    decreases |rest|
  {
    if rest == [] {
      assert first + rest == first;
    } else {
      var last := |first| + |rest| - 1;
      assert (first + rest)[..last] == first + rest[..|rest| - 1];
      ReplaySplit(s, b, first, rest[..|rest| - 1]);
    }
  }

  lemma {:induction false} FailuresOfSplit(first: seq<Contact>, rest: seq<Contact>, p: string)
    ensures FailuresOf(first + rest, p) == FailuresOf(first, p) + FailuresOf(rest, p)
    decreases |rest|
  {
    if rest == [] {
      assert first + rest == first;
    } else {
      assert (first + rest)[..|first| + |rest| - 1] == first + rest[..|rest| - 1];
      FailuresOfSplit(first, rest[..|rest| - 1], p);
    }
  }

  /** Over any requests, a provider's breaker is its own history replayed, and
      the failing calls on the log are those of that history. */
  lemma {:induction false} ServeIsReplay(s: Settings, bs: Breakers, requests: seq<Request>, p: string)
    requires Servable(bs, requests) && p in bs
    ensures Serve(s, bs, requests).0[p] == Replay(s, bs[p], History(s, bs, requests, p))
    ensures FailuresOf(Serve(s, bs, requests).1, p) == FailingCalls(s, bs[p], History(s, bs, requests, p))
    decreases |requests|
  {
    if requests != [] {
      var r := requests[0];
      RouteTracks(s, bs, r.candidates, r.probes, p);
      var one := Route(s, bs, r.candidates, r.probes, 0, []);
      ServeIsReplay(s, one.breakers, requests[1..], p);
      ReplaySplit(s, bs[p], Own(r.candidates, r.probes, p, one.tried), History(s, one.breakers, requests[1..], p));
      FailuresOfSplit(one.log, Serve(s, one.breakers, requests[1..]).1, p);
    }
  }

  /** What an outage of provider `p` costs, over any requests served between
      `from` and `to` in which none of its calls succeeds. */
  lemma RequestsDuringAnOutage(
    s: Settings, bs: Breakers, requests: seq<Request>, p: string, from: real, to: real)
    requires s.resetSeconds > 0.0 && Servable(bs, requests) && p in bs && Consistent(s, bs[p])
    requires Ordered(History(s, bs, requests, p), from, to)
    requires SuccessFree(s, bs[p], History(s, bs, requests, p))
    ensures FailuresOf(Serve(s, bs, requests).1, p) <= s.Limit() * (((to - from) / s.resetSeconds).Floor + 1)
  {
    ServeIsReplay(s, bs, requests, p);
    OutageIsBounded(s, bs[p], History(s, bs, requests, p), from, to);
  }
}
