/** Claim, publish, release: any number of webhook handlers over one shared
    idempotency log and one stream, in any interleaving.

    A single-message route is a batch of one. The world also lets a claim's
    time-to-live run out (`Expire`) and a handler die with an unhandled error
    or a killed process (`Crash`), because what the protocol promises depends
    on both. */
module WebhookProtocol {
  import opened Channels

  type Batch = seq<InboundMessage>

  /** Where one handler stands: about to claim message `i` (or to answer, once
      the batch is used up), about to publish it, about to give its claim
      back, or finished. */
  datatype Phase =
    | Claiming(i: nat)
    | Publishing(i: nat)
    | Releasing(i: nat)
    | Answered200
    | Answered503(i: nat)
    | Crashed(i: nat, holding: bool)

  datatype Handler = Handler(batch: Batch, phase: Phase) {
    predicate Valid() {
      match phase
      case Claiming(i) => i <= |batch|
      case Publishing(i) => i < |batch|
      case Releasing(i) => i < |batch|
      case Answered200 => true
      case Answered503(i) => i < |batch|
      case Crashed(i, holding) => i <= |batch| && (holding ==> i < |batch|)
    }

    predicate InFlight() {
      phase.Claiming? || phase.Publishing? || phase.Releasing?
    }

    /** The handler won the claim on `id` and has neither published it nor given it back. */
    predicate Holds(id: string) {
      Valid() &&
      match phase
      case Publishing(i) => batch[i].id == id
      case Releasing(i) => batch[i].id == id
      case Crashed(i, holding) => holding && batch[i].id == id
      case _ => false
    }

    /** How many messages the handler is finished with. */
    function Passed(): (n: nat)
      requires Valid()
      ensures n <= |batch|
    {
      match phase
      case Answered200 => |batch|
      case _ => phase.i
    }

    predicate Carries(id: string) {
      exists j :: 0 <= j < |batch| && batch[j].id == id
    }

    predicate HasPassed(id: string)
      requires Valid()
    {
      exists j :: 0 <= j < Passed() && batch[j].id == id
    }

    predicate RefusedAt(id: string) {
      Valid() && phase.Answered503? && batch[phase.i].id == id
    }
  }

  /** `expired` records each claim whose time-to-live ran out. */
  datatype World =
    World(claimed: set<string>, queue: seq<InboundMessage>, expired: multiset<string>, handlers: seq<Handler>)

  datatype Event =
    | Arrive(batch: Batch)
    | Step(h: nat, accepted: bool)
    | Crash(h: nat)
    | Expire(id: string)

  const INITIAL := World({}, [], multiset{}, [])

  function StepHandler(w: World, h: nat, accepted: bool): World
    requires h < |w.handlers| && w.handlers[h].Valid()
  {
    var me := w.handlers[h];
    match me.phase
    case Claiming(i) =>
      if i == |me.batch| then
        w.(handlers := w.handlers[h := me.(phase := Answered200)])
      else if me.batch[i].id in w.claimed then
        w.(handlers := w.handlers[h := me.(phase := Claiming(i + 1))])
      else
        w.(claimed := w.claimed + {me.batch[i].id},
           handlers := w.handlers[h := me.(phase := Publishing(i))])
    case Publishing(i) =>
      if accepted then
        w.(queue := w.queue + [me.batch[i]],
           handlers := w.handlers[h := me.(phase := Claiming(i + 1))])
      else
        w.(handlers := w.handlers[h := me.(phase := Releasing(i))])
    case Releasing(i) =>
      w.(claimed := w.claimed - {me.batch[i].id},
         handlers := w.handlers[h := me.(phase := Answered503(i))])
    case _ => w
  }

  function CrashHandler(w: World, h: nat): World
    requires h < |w.handlers|
  {
    var me := w.handlers[h];
    match me.phase
    case Claiming(i) => w.(handlers := w.handlers[h := me.(phase := Crashed(i, false))])
    case Publishing(i) => w.(handlers := w.handlers[h := me.(phase := Crashed(i, true))])
    case Releasing(i) => w.(handlers := w.handlers[h := me.(phase := Crashed(i, true))])
    case _ => w
  }

  predicate Valid(w: World) {
    forall h :: 0 <= h < |w.handlers| ==> w.handlers[h].Valid()
  }

  /** One event. An event that does not apply changes nothing. */
  function Next(w: World, e: Event): (w': World)
    requires Valid(w)
    ensures Valid(w')
  {
    match e
    case Arrive(batch) => w.(handlers := w.handlers + [Handler(batch, Claiming(0))])
    case Step(h, accepted) => if h < |w.handlers| then StepHandler(w, h, accepted) else w
    case Crash(h) => if h < |w.handlers| then CrashHandler(w, h) else w
    case Expire(id) =>
      if id in w.claimed then
        w.(claimed := w.claimed - {id}, expired := w.expired + multiset{id})
      else w
  }

  function Run(w: World, events: seq<Event>): (w': World)
    requires Valid(w)
    ensures Valid(w')
    decreases |events|
  {
    if events == [] then w else Run(Next(w, events[0]), events[1..])
  }

  // ------------------------------------------------------------ counting

  function Copies(queue: seq<InboundMessage>, id: string): nat {
    if queue == [] then 0
    else Copies(queue[..|queue| - 1], id) + (if queue[|queue| - 1].id == id then 1 else 0)
  }

  function Holders(handlers: seq<Handler>, id: string): nat {
    if handlers == [] then 0
    else Holders(handlers[..|handlers| - 1], id) + (if handlers[|handlers| - 1].Holds(id) then 1 else 0)
  }

  lemma {:induction false} HoldersUpdate(handlers: seq<Handler>, h: nat, me: Handler, id: string)
    requires h < |handlers|
    ensures Holders(handlers[h := me], id) + (if handlers[h].Holds(id) then 1 else 0)
         == Holders(handlers, id) + (if me.Holds(id) then 1 else 0)
  {
    var last := |handlers| - 1;
    if h == last {
      assert handlers[h := me][..last] == handlers[..last];
    } else {
      assert handlers[h := me][..last] == handlers[..last][h := me];
      HoldersUpdate(handlers[..last], h, me, id);
    }
  }

  lemma {:induction false} HolderCounted(handlers: seq<Handler>, h: nat, id: string)
    requires h < |handlers| && handlers[h].Holds(id)
    ensures Holders(handlers, id) >= 1
    ensures Holders(handlers, id) == 1 ==>
      forall k :: 0 <= k < |handlers| && handlers[k].Holds(id) ==> k == h
  {
    var last := |handlers| - 1;
    if h < last {
      HolderCounted(handlers[..last], h, id);
    } else if k :| 0 <= k < last && handlers[k].Holds(id) {
      HolderCounted(handlers[..last], k, id);
    }
  }

  lemma {:induction false} HolderExists(handlers: seq<Handler>, id: string) returns (h: nat)
    requires Holders(handlers, id) >= 1
    ensures h < |handlers| && handlers[h].Holds(id)
  {
    var last := |handlers| - 1;
    if handlers[last].Holds(id) {
      h := last;
    } else {
      h := HolderExists(handlers[..last], id);
    }
  }

  lemma {:induction false} QueuedIsCounted(queue: seq<InboundMessage>, i: nat)
    requires i < |queue|
    ensures Copies(queue, queue[i].id) >= 1
  {
    var last := |queue| - 1;
    if i < last {
      QueuedIsCounted(queue[..last], i);
    }
  }

  // ------------------------------------------------------------ invariants

  /** Each claim on record, or spent by expiry, pays for at most one copy on
      the queue or in a handler's hands; with no expiry it pays for exactly
      one. */
  predicate Balanced(w: World, id: string) {
    var owed := Copies(w.queue, id) + Holders(w.handlers, id);
    var paid := (if id in w.claimed then 1 else 0) + w.expired[id];
    && owed <= paid
    && (w.expired[id] == 0 ==> owed == paid)
    && (id in w.claimed ==> owed >= 1)
  }

  /** A message some handler is finished with is queued, still held, or was
      handed back with a 503. */
  predicate Accounted(w: World, id: string)
    requires Valid(w)
  {
    (exists h :: 0 <= h < |w.handlers| && w.handlers[h].HasPassed(id)) ==>
      || Copies(w.queue, id) + Holders(w.handlers, id) >= 1
      || exists h :: 0 <= h < |w.handlers| && w.handlers[h].RefusedAt(id)
  }

  lemma HandlerChange(w: World, w': World, h: nat, id: string)
    requires h < |w.handlers| && h < |w'.handlers|
    requires w'.handlers == w.handlers[h := w'.handlers[h]]
    ensures Holders(w'.handlers, id) + (if w.handlers[h].Holds(id) then 1 else 0)
         == Holders(w.handlers, id) + (if w'.handlers[h].Holds(id) then 1 else 0)
  {
    HoldersUpdate(w.handlers, h, w'.handlers[h], id);
  }

  lemma BalancedStep(w: World, e: Event, id: string)
    requires Valid(w) && Balanced(w, id)
    ensures Balanced(Next(w, e), id)
  {
    match e
    case Arrive(batch) =>
      assert Next(w, e).handlers[..|w.handlers|] == w.handlers;
    case Expire(_) =>
    case Step(h, accepted) =>
      if h < |w.handlers| {
        BalancedHandlerStep(w, h, accepted, id);
      }
    case Crash(h) =>
      if h < |w.handlers| {
        HandlerChange(w, CrashHandler(w, h), h, id);
      }
  }

  lemma BalancedHandlerStep(w: World, h: nat, accepted: bool, id: string)
    requires Valid(w) && Balanced(w, id) && h < |w.handlers|
    ensures Balanced(StepHandler(w, h, accepted), id)
  {
    var w' := StepHandler(w, h, accepted);
    HandlerChange(w, w', h, id);
    if w.handlers[h].Holds(id) {
      HolderCounted(w.handlers, h, id);
    }
    if w'.queue != w.queue {
      assert w'.queue[..|w.queue|] == w.queue;
    }
  }

  lemma RefusalsStay(w: World, e: Event, h: nat, id: string)
    requires Valid(w) && h < |w.handlers| && w.handlers[h].RefusedAt(id)
    ensures h < |Next(w, e).handlers| && Next(w, e).handlers[h].RefusedAt(id)
  {
  }

  /** The only way `id` joins the finished messages is by a handler getting
      past it, which happens on a claim already taken, a publish, or a
      release. */
  lemma AccountedStep(w: World, e: Event, id: string)
    requires Valid(w) && Balanced(w, id) && Accounted(w, id)
    ensures Accounted(Next(w, e), id)
  {
    if r :| 0 <= r < |w.handlers| && w.handlers[r].RefusedAt(id) {
      RefusalsStay(w, e, r, id);
    } else {
      match e
      case Arrive(batch) =>
        AccountedArrival(w, batch, id);
      case Expire(_) =>
      case Crash(h) =>
        if h < |w.handlers| {
          AccountedCrash(w, h, id);
        }
      case Step(h, accepted) =>
        if h < |w.handlers| {
          AccountedHandlerStep(w, h, accepted, id);
        }
    }
  }

  lemma AccountedArrival(w: World, batch: Batch, id: string)
    requires Valid(w) && Accounted(w, id)
    requires forall r :: 0 <= r < |w.handlers| ==> !w.handlers[r].RefusedAt(id)
    ensures Accounted(Next(w, Arrive(batch)), id)
  {
    var w' := Next(w, Arrive(batch));
    assert w'.handlers[..|w.handlers|] == w.handlers;
    if h :| 0 <= h < |w'.handlers| && w'.handlers[h].HasPassed(id) {
      assert w.handlers[h].HasPassed(id);
    }
  }

  lemma AccountedCrash(w: World, h: nat, id: string)
    requires Valid(w) && Accounted(w, id) && h < |w.handlers|
    requires forall r :: 0 <= r < |w.handlers| ==> !w.handlers[r].RefusedAt(id)
    ensures Valid(CrashHandler(w, h)) && Accounted(CrashHandler(w, h), id)
  {
    var w' := CrashHandler(w, h);
    HandlerChange(w, w', h, id);
    if k :| 0 <= k < |w'.handlers| && w'.handlers[k].HasPassed(id) {
      assert w.handlers[k].HasPassed(id);
    }
  }

  lemma AccountedHandlerStep(w: World, h: nat, accepted: bool, id: string)
    requires Valid(w) && Balanced(w, id) && Accounted(w, id) && h < |w.handlers|
    requires forall r :: 0 <= r < |w.handlers| ==> !w.handlers[r].RefusedAt(id)
    ensures Accounted(StepHandler(w, h, accepted), id)
  {
    var w' := StepHandler(w, h, accepted);
    HandlerChange(w, w', h, id);
    if w'.queue != w.queue {
      assert w'.queue[..|w.queue|] == w.queue;
    }
    if k :| 0 <= k < |w'.handlers| && w'.handlers[k].HasPassed(id) {
      PassesOne(w, h, accepted, k, id);
      if w.handlers[h].phase.Releasing? {
        assert w'.handlers[h].RefusedAt(id) || w.handlers[k].HasPassed(id);
      }
    }
  }

  /** A step takes its own handler past one message, and no other past any. */
  lemma PassesOne(w: World, h: nat, accepted: bool, k: nat, id: string)
    requires Valid(w) && h < |w.handlers| && k < |w.handlers|
    requires StepHandler(w, h, accepted).handlers[k].Valid() && StepHandler(w, h, accepted).handlers[k].HasPassed(id)
    ensures
      || w.handlers[k].HasPassed(id)
      || (w.handlers[h].InFlight() && w.handlers[h].Passed() < |w.handlers[h].batch|
          && w.handlers[h].batch[w.handlers[h].Passed()].id == id)
  {
    var me := StepHandler(w, h, accepted).handlers[k];
    var j :| 0 <= j < me.Passed() && me.batch[j].id == id;
    assert w.handlers[k].batch[j].id == id;
  }

  lemma {:induction false} RunKeeps(w: World, events: seq<Event>, id: string)
    requires Valid(w) && Balanced(w, id) && Accounted(w, id)
    ensures Balanced(Run(w, events), id) && Accounted(Run(w, events), id)
    decreases |events|
  {
    if events != [] {
      BalancedStep(w, events[0], id);
      AccountedStep(w, events[0], id);
      RunKeeps(Next(w, events[0]), events[1..], id);
    }
  }

  // ------------------------------------------------------------ theorems

  /** Whatever the interleaving, an id is queued at most once more than its
      claim has expired. */
  lemma QueuedAtMostOnce(events: seq<Event>, id: string)
    ensures Copies(Run(INITIAL, events).queue, id) <= 1 + Run(INITIAL, events).expired[id]
  {
    RunKeeps(INITIAL, events, id);
  }

  /** While no claim on the id has expired, it is claimed exactly when it is
      on the queue or in exactly one handler's hands, and never both. */
  lemma ClaimedExactlyWhenQueuedOrHeld(events: seq<Event>, id: string)
    requires Run(INITIAL, events).expired[id] == 0
    ensures
      var w := Run(INITIAL, events);
      var queued := exists i :: 0 <= i < |w.queue| && w.queue[i].id == id;
      var held := exists h :: 0 <= h < |w.handlers| && w.handlers[h].Holds(id);
      && (id in w.claimed <==> queued || held)
      && !(queued && held)
      && (forall h, k | 0 <= h < |w.handlers| && 0 <= k < |w.handlers| ::
            w.handlers[h].Holds(id) && w.handlers[k].Holds(id) ==> h == k)
  {
    var w := Run(INITIAL, events);
    RunKeeps(INITIAL, events, id);
    forall i | 0 <= i < |w.queue| && w.queue[i].id == id ensures Copies(w.queue, id) >= 1 {
      QueuedIsCounted(w.queue, i);
    }
    forall h | 0 <= h < |w.handlers| && w.handlers[h].Holds(id)
      ensures Holders(w.handlers, id) >= 1
      ensures forall k :: 0 <= k < |w.handlers| && w.handlers[k].Holds(id) ==> k == h
    {
      HolderCounted(w.handlers, h, id);
    }
    if id in w.claimed {
      if Copies(w.queue, id) >= 1 {
        var i := CopyExists(w.queue, id);
      } else {
        var h := HolderExists(w.handlers, id);
      }
    }
  }

  lemma {:induction false} CopyExists(queue: seq<InboundMessage>, id: string) returns (i: nat)
    requires Copies(queue, id) >= 1
    ensures i < |queue| && queue[i].id == id
  {
    var last := |queue| - 1;
    if queue[last].id == id {
      i := last;
    } else {
      i := CopyExists(queue[..last], id);
    }
  }

  predicate Quiet(w: World) {
    forall h :: 0 <= h < |w.handlers| ==> !w.handlers[h].InFlight()
  }

  /** No handler died between winning the claim on `id` and settling it. */
  predicate NoStuckClaim(w: World, id: string) {
    forall h :: 0 <= h < |w.handlers| && w.handlers[h].phase.Crashed? ==> !w.handlers[h].Holds(id)
  }

  /** No silent loss. Once every handler has finished, a message that was
      delivered and is not on the queue is unclaimed, so its retry will be
      taken, and some delivery of it was not answered 200, so a retry is
      coming. Claims may expire and handlers may crash, as long as none died
      holding this id. */
  lemma NoSilentLoss(events: seq<Event>, id: string, h: nat)
    requires
      var w := Run(INITIAL, events);
      && Quiet(w) && NoStuckClaim(w, id)
      && h < |w.handlers| && w.handlers[h].Carries(id)
      && Copies(w.queue, id) == 0
    ensures
      var w := Run(INITIAL, events);
      && id !in w.claimed
      && exists k :: 0 <= k < |w.handlers| && w.handlers[k].Carries(id) && !w.handlers[k].phase.Answered200?
  {
    var w := Run(INITIAL, events);
    RunKeeps(INITIAL, events, id);
    if Holders(w.handlers, id) >= 1 {
      var k := HolderExists(w.handlers, id);
      assert false;
    }
    var me := w.handlers[h];
    if me.phase.Answered200? {
      assert me.HasPassed(id);
      var k :| 0 <= k < |w.handlers| && w.handlers[k].RefusedAt(id);
      assert w.handlers[k].Carries(id);
    }
  }

  /** Without crashes the delivery that was not answered 200 was answered 503. */
  lemma LossIsAnswered503(events: seq<Event>, id: string, h: nat)
    requires
      var w := Run(INITIAL, events);
      && Quiet(w) && h < |w.handlers| && w.handlers[h].Carries(id)
      && (forall k :: 0 <= k < |w.handlers| ==> !w.handlers[k].phase.Crashed?)
      && Copies(w.queue, id) == 0
    ensures
      var w := Run(INITIAL, events);
      && id !in w.claimed
      && exists k :: 0 <= k < |w.handlers| && w.handlers[k].Carries(id) && w.handlers[k].phase.Answered503?
  {
    NoSilentLoss(events, id, h);
  }

  /** The other side: a handler that dies holding an unexpired claim loses the
      message for good. The id stays claimed and off the queue in every
      continuation in which the claim does not expire. */
  lemma StuckClaimIsLost(events: seq<Event>, id: string, h: nat, more: seq<Event>)
    requires
      var w := Run(INITIAL, events);
      h < |w.handlers| && w.handlers[h].phase.Crashed? && w.handlers[h].Holds(id)
    requires Run(Run(INITIAL, events), more).expired[id] == 0
    ensures
      var w' := Run(Run(INITIAL, events), more);
      id in w'.claimed && Copies(w'.queue, id) == 0
  {
    var w := Run(INITIAL, events);
    RunKeeps(INITIAL, events, id);
    RunKeeps(w, more, id);
    CrashedStays(w, more, h);
    HolderCounted(Run(w, more).handlers, h, id);
  }

  lemma {:induction false} CrashedStays(w: World, more: seq<Event>, h: nat)
    requires Valid(w) && h < |w.handlers| && w.handlers[h].phase.Crashed?
    ensures h < |Run(w, more).handlers| && Run(w, more).handlers[h] == w.handlers[h]
    decreases |more|
  {
    if more != [] {
      CrashedStays(Next(w, more[0]), more[1..], h);
    }
  }

  /** Such a run exists: one delivery claims and dies, the vendor's retry is
      answered 200, and the message is nowhere. */
  lemma CrashLosesAMessage(m: InboundMessage)
    ensures
      var w := Run(INITIAL, [Arrive([m]), Step(0, true), Crash(0), Arrive([m]), Step(1, true), Step(1, true)]);
      && Quiet(w) && w.queue == [] && m.id in w.claimed
      && |w.handlers| == 2 && w.handlers[1].phase == Answered200
  {
    var w0 := Next(INITIAL, Arrive([m]));
    var w1 := Next(w0, Step(0, true));
    var w2 := Next(w1, Crash(0));
    var w3 := Next(w2, Arrive([m]));
    var w4 := Next(w3, Step(1, true));
    var w5 := Next(w4, Step(1, true));
    assert Run(w5, []) == w5;
    assert Run(w4, [Step(1, true)]) == w5;
    assert Run(w3, [Step(1, true), Step(1, true)]) == w5;
    assert Run(w2, [Arrive([m]), Step(1, true), Step(1, true)]) == w5;
    assert Run(w1, [Crash(0), Arrive([m]), Step(1, true), Step(1, true)]) == w5;
    assert Run(w0, [Step(0, true), Crash(0), Arrive([m]), Step(1, true), Step(1, true)]) == w5;
  }

  /** What dying is: a handler in flight stops where it is, with what it holds,
      and nothing else changes; one that has finished cannot die. */
  lemma CrashStopsAHandler(w: World, h: nat, id: string)
    requires Valid(w) && h < |w.handlers|
    ensures
      var w', me := Next(w, Crash(h)), w.handlers[h];
      && |w'.handlers| == |w.handlers| && w' == w.(handlers := w.handlers[h := w'.handlers[h]])
      && var stopped := w'.handlers[h];
         if me.InFlight() then
           && stopped.phase.Crashed? && stopped.batch == me.batch && stopped.Passed() == me.Passed()
           && (stopped.Holds(id) <==> me.Holds(id))
         else stopped == me
  {
  }

  lemma RunOne(w: World, e: Event, rest: seq<Event>)
    requires Valid(w)
    ensures Run(w, [e] + rest) == Run(Next(w, e), rest)
  {
    assert ([e] + rest)[1..] == rest;
  }

  lemma StepsOf(w: World, a: Event, b: Event, c: Event, d: Event)
    requires Valid(w)
    ensures Run(w, [a, b, c, d]) == Next(Next(Next(Next(w, a), b), c), d)
  {
    assert [a, b, c, d] == [a] + [b, c, d] && [b, c, d] == [b] + [c, d] && [c, d] == [c] + [d] && [d] == [d] + [];
    RunOne(w, a, [b, c, d]);
    RunOne(Next(w, a), b, [c, d]);
    RunOne(Next(Next(w, a), b), c, [d]);
    RunOne(Next(Next(Next(w, a), b), c), d, []);
  }

  /** `w` with one more handler, of a single message. */
  function With(w: World, m: InboundMessage, phase: Phase): World {
    w.(handlers := w.handlers + [Handler([m], phase)])
  }

  lemma LastSteps(w: World, m: InboundMessage, phase: Phase)
    requires Valid(With(w, m, phase))
    ensures
      var h, next := |w.handlers|, Next(With(w, m, phase), Step(|w.handlers|, true));
      && (phase == Claiming(0) && m.id !in w.claimed ==>
            next == With(w.(claimed := w.claimed + {m.id}), m, Publishing(0)))
      && (phase == Publishing(0) ==> next == With(w.(queue := w.queue + [m]), m, Claiming(1)))
      && (phase == Claiming(1) ==> next == With(w, m, Answered200))
  {
    var hs := w.handlers;
    assert With(w, m, phase).handlers[|hs|] == Handler([m], phase);
    assert forall other :: (hs + [Handler([m], phase)])[|hs| := other] == hs + [other];
  }

  lemma UndisturbedIsQueued(w: World, m: InboundMessage)
    requires Valid(w) && m.id !in w.claimed
    ensures
      var go := Step(|w.handlers|, true);
      Run(w, [Arrive([m]), go, go, go])
      == With(w.(claimed := w.claimed + {m.id}, queue := w.queue + [m]), m, Answered200)
  {
    var go := Step(|w.handlers|, true);
    var claimed := w.(claimed := w.claimed + {m.id});
    StepsOf(w, Arrive([m]), go, go, go);
    LastSteps(w, m, Claiming(0));
    LastSteps(claimed, m, Publishing(0));
    LastSteps(claimed.(queue := w.queue + [m]), m, Claiming(1));
  }

  /** What expiry is worth: once the claim on a message has run out, a retry
      that nobody interleaves with is taken and queued, in any world. */
  lemma ExpiryLetsARetryIn(w: World, m: InboundMessage)
    requires Valid(w)
    ensures m.id !in w.claimed ==> Next(w, Expire(m.id)) == w
    ensures m.id in w.claimed ==>
      var h := |w.handlers|;
      var w' := Run(w, [Expire(m.id), Arrive([m]), Step(h, true), Step(h, true), Step(h, true)]);
      && w'.queue == w.queue + [m] && w'.claimed == w.claimed && w'.expired == w.expired + multiset{m.id}
      && w'.handlers == w.handlers + [Handler([m], Answered200)]
  {
    if m.id in w.claimed {
      var go := Step(|w.handlers|, true);
      var retry := [Arrive([m]), go, go, go];
      UndisturbedIsQueued(Next(w, Expire(m.id)), m);
      assert [Expire(m.id), Arrive([m]), go, go, go] == [Expire(m.id)] + retry;
      RunOne(w, Expire(m.id), retry);
      assert w.claimed - {m.id} + {m.id} == w.claimed;
    }
  }
}
