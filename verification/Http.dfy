/** Retrying one provider call: what is posted, how often, and how long the
    caller waits. */
module Http {
  import opened Sequences
  import Router

  /** What one post brings back. `outOfBudget` is the body naming a spend cap;
      `json` is whether the body parses. */
  datatype Response =
    | TransportError
    | Response(status: nat, outOfBudget: bool, json: bool)

  datatype Verdict = Good | Unreadable | Unavailable | Rejected

  /** Status to exception: rate limits, server errors and spend caps are
      someone else's fault, any other client error is ours. */
  function Classify(r: Response): Verdict {
    match r
    case TransportError => Unavailable
    case Response(status, outOfBudget, json) =>
      if status < 400 then if json then Good else Unreadable
      else if status == 429 || status >= 500 || outOfBudget then Unavailable
      else Rejected
  }

  datatype Retry = Retry(maxRetries: int, base: real, jitter: real)

  /** `NothingTried` is the crash of raising an error that was never caught,
      when the configuration allows no attempt at all. */
  datatype Result = Body | BadBody | ProviderUnavailable | ProviderRequestError | NothingTried

  function Attempts(retry: Retry): nat {
    if retry.maxRetries < 0 then 0 else retry.maxRetries + 1
  }

  /** The posts of one call, from attempt `k` on, when post `k` brings
      `responses(k)`: up to the first that is not transient, or to the limit. */
  function PostsFrom(retry: Retry, responses: nat -> Response, k: nat): (n: nat)
    requires k <= Attempts(retry)
    ensures k <= n <= Attempts(retry)
    ensures k < Attempts(retry) ==> n > k
    ensures forall j :: k <= j < n - 1 ==> Classify(responses(j)) == Unavailable
    ensures n < Attempts(retry) ==> n > k && Classify(responses(n - 1)) != Unavailable
    decreases Attempts(retry) - k
  {
    if k == Attempts(retry) then k
    else if Classify(responses(k)) != Unavailable then k + 1
    else PostsFrom(retry, responses, k + 1)
  }

  function PostsOf(retry: Retry, responses: nat -> Response): nat {
    PostsFrom(retry, responses, 0)
  }

  function ResultOf(retry: Retry, responses: nat -> Response): Result {
    var n := PostsOf(retry, responses);
    if n == 0 then NothingTried
    else match Classify(responses(n - 1))
      case Good => Body
      case Unreadable => BadBody
      case Rejected => ProviderRequestError
      case Unavailable => ProviderUnavailable
  }

  function Pow2(n: nat): (p: nat)
    ensures p >= 1
  {
    if n == 0 then 1 else 2 * Pow2(n - 1)
  }

  function Sum(xs: seq<real>): real {
    if xs == [] then 0.0 else Sum(xs[..|xs| - 1]) + xs[|xs| - 1]
  }

  /** Posts until the first response that is not transient, or until the
      attempts run out, and waits between attempts. `responses(k)` and
      `random(k)` are what post `k` brings and what the generator draws after it. */
  method RequestWithRetries(retry: Retry, responses: nat -> Response, random: nat -> real)
    returns (result: Result, posts: nat, sleeps: seq<real>)
    ensures posts == PostsOf(retry, responses) && result == ResultOf(retry, responses)
    ensures |sleeps| == if posts == 0 then 0 else posts - 1
    ensures forall k :: 0 <= k < |sleeps| ==> sleeps[k] == Backoff(retry, random, k)
  {
    posts, sleeps := 0, [];
    var attempts := retry.maxRetries + 1;
    var attempt: nat := 0;
    while attempt < attempts
      invariant posts == attempt && |sleeps| == attempt
      invariant attempt <= Attempts(retry) && (attempt > 0 ==> attempt < attempts)
      invariant PostsFrom(retry, responses, attempt) == PostsOf(retry, responses)
      invariant forall k :: 0 <= k < attempt ==> sleeps[k] == Backoff(retry, random, k)
    {
      var verdict := Classify(responses(attempt));
      posts := posts + 1;
      match verdict {
        case Good => return Body, posts, sleeps;
        case Unreadable => return BadBody, posts, sleeps;
        case Rejected => return ProviderRequestError, posts, sleeps;
        case Unavailable =>
          if attempt == attempts - 1 {
            return ProviderUnavailable, posts, sleeps;
          }
          sleeps := sleeps + [Backoff(retry, random, attempt)];
          attempt := attempt + 1;
      }
    }
    return NothingTried, posts, sleeps;
  }

  function Backoff(retry: Retry, random: nat -> real, k: nat): real {
    retry.base * Pow2(k) as real + Share(random(k), retry.jitter)
  }

  /** The part of the jitter a draw between 0 and 1 adds. */
  function Share(draw: real, jitter: real): real {
    draw * jitter
  }

  /** The wait over the first `r` retries. */
  function TotalWait(retry: Retry, random: nat -> real, r: nat): real {
    if r == 0 then 0.0 else TotalWait(retry, random, r - 1) + Backoff(retry, random, r - 1)
  }

  lemma {:induction false} SleepsAreTheWait(retry: Retry, random: nat -> real, sleeps: seq<real>)
    requires forall k :: 0 <= k < |sleeps| ==> sleeps[k] == Backoff(retry, random, k)
    ensures Sum(sleeps) == TotalWait(retry, random, |sleeps|)
  {
    if sleeps != [] {
      SleepsAreTheWait(retry, random, sleeps[..|sleeps| - 1]);
    }
  }

  /** The part of r waits that doubling contributes, and the most that jitter can. */
  function Doublings(base: real, r: nat): real {
    if r == 0 then 0.0 else Doublings(base, r - 1) + base * Pow2(r - 1) as real
  }

  function Jitters(jitter: real, r: nat): real {
    if r == 0 then 0.0 else Jitters(jitter, r - 1) + jitter
  }

  lemma {:induction false} DoublingsSum(base: real, r: nat)
    ensures Doublings(base, r) == base * (Pow2(r) as real - 1.0)
  {
    if r == 0 {
      assert base * 0.0 == 0.0;
    } else {
      DoublingsSum(base, r - 1);
      DoublingStep(base, Pow2(r - 1) as real);
    }
  }

  lemma DoublingStep(base: real, q: real)
    ensures base * (q - 1.0) + base * q == base * (2.0 * q - 1.0)
  {
  }

  lemma {:induction false} JittersSum(jitter: real, r: nat)
    ensures Jitters(jitter, r) == r as real * jitter
  {
    if r > 0 {
      JittersSum(jitter, r - 1);
      assert r as real * jitter == (r - 1) as real * jitter + jitter;
    }
  }

  lemma {:induction false} WaitsAddUp(retry: Retry, random: nat -> real, r: nat)
    requires retry.jitter >= 0.0 && forall k :: 0.0 <= random(k) <= 1.0
    ensures Doublings(retry.base, r) <= TotalWait(retry, random, r)
    ensures TotalWait(retry, random, r) <= Doublings(retry.base, r) + Jitters(retry.jitter, r)
  {
    if r > 0 {
      WaitsAddUp(retry, random, r - 1);
      var doubled, jittered := retry.base * Pow2(r - 1) as real, Share(random(r - 1), retry.jitter);
      Scaled(retry.jitter, random(r - 1));
      AddUp(Doublings(retry.base, r - 1), TotalWait(retry, random, r - 1), Jitters(retry.jitter, r - 1),
            doubled, jittered, retry.jitter);
    }
  }

  lemma AddUp(low: real, total: real, slack: real, more: real, draw: real, jitter: real)
    requires low <= total <= low + slack && 0.0 <= draw <= jitter
    ensures low + more <= total + (more + draw) <= low + more + (slack + jitter)
  {
  }

  /** r retries wait at least base * (2^r - 1) and at most that plus r full jitters. */
  lemma WaitIsBounded(retry: Retry, random: nat -> real, sleeps: seq<real>)
    requires retry.jitter >= 0.0 && forall k :: 0.0 <= random(k) <= 1.0
    requires forall k :: 0 <= k < |sleeps| ==> sleeps[k] == Backoff(retry, random, k)
    ensures
      var doubling := retry.base * (Pow2(|sleeps|) as real - 1.0);
      doubling <= Sum(sleeps) <= doubling + |sleeps| as real * retry.jitter
  {
    SleepsAreTheWait(retry, random, sleeps);
    WaitsAddUp(retry, random, |sleeps|);
    DoublingsSum(retry.base, |sleeps|);
    JittersSum(retry.jitter, |sleeps|);
  }

  lemma Scaled(jitter: real, draw: real)
    requires jitter >= 0.0 && 0.0 <= draw <= 1.0
    ensures 0.0 <= Share(draw, jitter) <= jitter
  {
    NonNegative(draw, jitter);
    NonNegative(1.0 - draw, jitter);
    assert (1.0 - draw) * jitter == jitter - draw * jitter;
  }

  lemma NonNegative(a: real, b: real)
    requires a >= 0.0 && b >= 0.0
    ensures a * b >= 0.0
  {
  }

  // ------------------------------------------------------------ what retrying means

  /** Worth another try: the connection failed, the provider limits the rate,
      fails, or says the budget is spent. */
  predicate IsTransient(r: Response) {
    r.TransportError? || r.status == 429 || r.status >= 500 || (r.status >= 400 && r.outOfBudget)
  }

  /** What the last post makes of a call. */
  function Settles(r: Response): Result {
    if IsTransient(r) then ProviderUnavailable
    else if r.status >= 400 then ProviderRequestError
    else if r.json then Body
    else BadBody
  }

  /** One call, in the terms of its responses: every post but the last was met
      with a transient failure, the last was not unless the attempts ran out,
      and the result is the last one's. So a call gives up as unavailable
      exactly when it has used every attempt and failed transiently each time. */
  lemma CallIsSettledByItsLastPost(retry: Retry, responses: nat -> Response)
    ensures
      var n := PostsOf(retry, responses);
      && n <= Attempts(retry) && (n == 0 <==> retry.maxRetries < 0)
      && (forall k :: 0 <= k < n - 1 ==> IsTransient(responses(k)))
      && ResultOf(retry, responses) == (if n == 0 then NothingTried else Settles(responses(n - 1)))
      && (ResultOf(retry, responses) == ProviderUnavailable
          <==> n > 0 && forall k :: 0 <= k < Attempts(retry) ==> IsTransient(responses(k)))
      && (n > 0 && IsTransient(responses(n - 1)) ==> n == Attempts(retry))
  {
    var n := PostsOf(retry, responses);
    ClassifiedExactly(responses);
    if n > 0 && IsTransient(responses(n - 1)) {
      assert n == Attempts(retry);
    }
  }

  lemma ClassifiedExactly(responses: nat -> Response)
    ensures forall k :: Classify(responses(k)) == Unavailable <==> IsTransient(responses(k))
    ensures forall k :: Classify(responses(k)) == Rejected <==> Settles(responses(k)) == ProviderRequestError
    ensures forall k :: Classify(responses(k)) == Good <==> Settles(responses(k)) == Body
  {
  }

  // ------------------------------------------------------------ posts of one routed request

  /** What a candidate's line would bring: the clock before and after, the
      response to each post, and the completion a good body holds. */
  datatype Line = Line(asked: real, ended: real, responses: nat -> Response, completion: Router.Completion)

  /** The outcome the router sees of a call made on that line. */
  function ProbeOf(retry: Retry, line: Line): Router.Probe {
    Router.Probe(line.asked,
                 match ResultOf(retry, line.responses)
                 case Body => Router.Success(line.completion)
                 case ProviderUnavailable => Router.Transient
                 case BadBody => Router.Fatal("unreadable body")
                 case ProviderRequestError => Router.Fatal("request rejected")
                 case NothingTried => Router.Fatal("no attempt allowed"),
                 line.ended)
  }

  function ProbesOf(retry: Retry, lines: seq<Line>): seq<Router.Probe> {
    seq(|lines|, i requires 0 <= i < |lines| => ProbeOf(retry, lines[i]))
  }

  /** The posts of the first `n` candidates: those whose breaker refuses them
      are not called, each of the others is called once, on its own line. */
  function Spent(
    s: Router.Settings, bs: Router.Breakers, candidates: seq<Router.Candidate>, retry: Retry, lines: seq<Line>, n: nat)
    : nat
    requires n <= |candidates| == |lines| && Router.Supplied(candidates, bs)
  {
    if n == 0 then 0
    else
      var before := Router.StatesAt(s, bs, candidates, ProbesOf(retry, lines), n - 1);
      Spent(s, bs, candidates, retry, lines, n - 1)
      + if before[candidates[n - 1].provider].Refuses(s, lines[n - 1].asked) then 0
        else PostsOf(retry, lines[n - 1].responses)
  }

  predicate AllTransient(log: seq<Router.Contact>) {
    forall c :: c in log ==> c.transient
  }

  /** Posts spent on the calls of a log: no call above the limit, and every
      call at it when all of them failed. */
  predicate PaidBy(spent: nat, log: seq<Router.Contact>, limit: nat) {
    spent <= Times(limit, |log|) && (AllTransient(log) ==> spent == Times(limit, |log|))
  }

  lemma OneMoreCall(spent: nat, log: seq<Router.Contact>, provider: string, retry: Retry, line: Line)
    requires PaidBy(spent, log, Attempts(retry))
    ensures PaidBy(spent + PostsOf(retry, line.responses),
                   log + [Router.Contact(provider, ProbeOf(retry, line).outcome.Transient?)], Attempts(retry))
  {
    var call := Router.Contact(provider, ProbeOf(retry, line).outcome.Transient?);
    CallIsSettledByItsLastPost(retry, line.responses);
    assert call in log + [call] && forall c :: c in log ==> c in log + [call];
  }

  lemma {:induction false} SpentOnCalls(
    s: Router.Settings, bs: Router.Breakers, candidates: seq<Router.Candidate>, retry: Retry, lines: seq<Line>, n: nat)
    requires n <= |candidates| == |lines| && Router.Supplied(candidates, bs)
    ensures PaidBy(Spent(s, bs, candidates, retry, lines, n),
                   Router.LogAt(s, bs, candidates, ProbesOf(retry, lines), n), Attempts(retry))
  {
    if n > 0 {
      SpentOnCalls(s, bs, candidates, retry, lines, n - 1);
      var probes := ProbesOf(retry, lines);
      var before := Router.LogAt(s, bs, candidates, probes, n - 1);
      var spent := Spent(s, bs, candidates, retry, lines, n - 1);
      var name := candidates[n - 1].provider;
      if Router.StatesAt(s, bs, candidates, probes, n - 1)[name].Refuses(s, lines[n - 1].asked) {
        assert before + [] == before;
        assert Router.LogAt(s, bs, candidates, probes, n) == before;
        assert Spent(s, bs, candidates, retry, lines, n) == spent;
      } else {
        OneMoreCall(spent, before, name, retry, lines[n - 1]);
        assert Router.LogAt(s, bs, candidates, probes, n)
            == before + [Router.Contact(name, ProbeOf(retry, lines[n - 1]).outcome.Transient?)];
        assert Spent(s, bs, candidates, retry, lines, n) == spent + PostsOf(retry, lines[n - 1].responses);
      }
    }
  }

  lemma {:induction false} TransientUntilSettled(
    s: Router.Settings, bs: Router.Breakers, candidates: seq<Router.Candidate>, probes: seq<Router.Probe>, n: nat)
    requires n <= |candidates| == |probes| && Router.Supplied(candidates, bs)
    requires Router.NoneSettles(s, bs, candidates, probes, n)
    ensures AllTransient(Router.LogAt(s, bs, candidates, probes, n))
  {
    if n > 0 {
      TransientUntilSettled(s, bs, candidates, probes, n - 1);
      assert !Router.Settles(s, bs, candidates, probes, n - 1);
    }
  }

  /** What one routed request costs, when every candidate's outcome is what
      retrying its own responses comes to: at most candidates * (max_retries +
      1) posts, and exactly that many for each call made when the request ends
      with nobody available. */
  lemma RequestCostIsBounded(
    s: Router.Settings, bs: Router.Breakers, candidates: seq<Router.Candidate>, retry: Retry, lines: seq<Line>)
    requires |candidates| == |lines| && Router.Supplied(candidates, bs)
    ensures
      var r := Router.Route(s, bs, candidates, ProbesOf(retry, lines), 0, []);
      && r.tried <= |candidates|
      && var spent := Spent(s, bs, candidates, retry, lines, r.tried);
         && spent <= |r.log| * Attempts(retry) <= |candidates| * Attempts(retry)
         && (r.reply == Router.AllProvidersUnavailable ==> spent == |r.log| * Attempts(retry))
  {
    var probes := ProbesOf(retry, lines);
    Router.FailoverIsFirstToSettle(s, bs, candidates, probes);
    Router.CallsAtMostCandidates(s, bs, candidates, probes);
    var r := Router.Route(s, bs, candidates, probes, 0, []);
    SpentOnCalls(s, bs, candidates, retry, lines, r.tried);
    TimesIs(Attempts(retry), |r.log|);
    TimesMonotone(Attempts(retry), |r.log|, |candidates|);
    if r.reply == Router.AllProvidersUnavailable {
      TransientUntilSettled(s, bs, candidates, probes, r.tried);
    }
  }
}
