/** Which script a turn runs: the worker compares what the conversation is
    pinned to with the tenant's current script and asks for the pinned version
    when they differ. */
module Pinning {
  import opened Sequences
  import opened ScriptEngine
  import opened Scripts

  datatype Customer = Customer(tenant: string, sender: string)

  /** What a conversation's state carries of its script: the id and version
      written in the document it began on. No turn changes them. */
  datatype Pin = Pin(script: string, version: int)

  function PinTo(script: Script): Pin {
    Pin(script.Start().scriptId, script.Start().version)
  }

  /** The script a turn runs, and the resolver's cache afterwards. */
  function Pick(rows: seq<Row>, cache: Cache, fallback: Script, tenant: string, pinned: Option<Pin>): (Script, Cache) {
    var (engine, asked) := ResolveCurrent(rows, cache, tenant, fallback);
    var pin := pinned.GetOr(PinTo(engine));
    if pin.version == engine.version then (engine, asked)
    else
      var (found, after) := ResolveAt(rows, asked, Key(tenant, pin.script), pin.version);
      (found.GetOr(engine), after)
  }

  method PickScript(resolver: ScriptResolver, tenant: string, pinned: Option<Pin>) returns (script: Script)
    requires Disciplined(resolver.store.rows)
    modifies resolver
    ensures (script, resolver.cache)
         == Pick(resolver.store.rows, old(resolver.cache), resolver.fallback, tenant, pinned)
  {
    script := resolver.Current(tenant);
    var pin := pinned.GetOr(PinTo(script));
    if pin.version != script.version {
      var found := resolver.At(Key(tenant, pin.script), pin.version);
      if found.Some? {
        script := found.value;
      }
    }
  }

  /** What is published of a script carries the id and version it is stored
      under. The store does not see to it. */
  predicate Numbered(rows: seq<Row>, key: Key) {
    forall r :: r in rows && r.key == key && r.published ==> r.body.id == key.script && r.body.version == r.version
  }

  /** The document a conversation began on, and whether it was a published one
      or the configuration file. */
  datatype Beginning = Beginning(document: Script, published: bool)

  datatype World = World(rows: seq<Row>, cache: Cache, pins: map<Customer, Pin>, began: map<Customer, Beginning>)

  datatype Happening = Edit(op: Op) | Message(from: Customer)

  function Picked(w: World, fallback: Script, c: Customer): (Script, Cache) {
    Pick(w.rows, w.cache, fallback, c.tenant, if c in w.pins then Some(w.pins[c]) else None)
  }

  function ScriptOf(c: Customer, fallback: Script): Key {
    Key(c.tenant, fallback.id)
  }

  function Next(w: World, fallback: Script, h: Happening): World {
    match h
    case Edit(op) => w.(rows := Step(w.rows, op))
    case Message(c) =>
      var (script, cache) := Picked(w, fallback, c);
      if c in w.pins then w.(cache := cache)
      else
        World(w.rows, cache, w.pins[c := PinTo(script)],
              w.began[c := Beginning(script, CurrentRow(w.rows, ScriptOf(c, fallback)).Some?)])
  }

  function AfterRun(w: World, fallback: Script, hs: seq<Happening>): World
    decreases |hs|
  {
    if hs == [] then w else AfterRun(Next(w, fallback, hs[0]), fallback, hs[1..])
  }

  lemma {:induction false} HappeningsFollow(w: World, fallback: Script, hs: seq<Happening>, h: Happening)
    ensures AfterRun(w, fallback, hs + [h]) == Next(AfterRun(w, fallback, hs), fallback, h)
    decreases |hs|
  {
    if hs == [] {
      assert hs + [h] == [h] && [h][1..] == [];
    } else {
      assert (hs + [h])[1..] == hs[1..] + [h];
      HappeningsFollow(Next(w, fallback, hs[0]), fallback, hs[1..], h);
    }
  }

  /** The next turn of a conversation is served as it began, by the same
      document, which the engine does not refuse: always when it began on a
      published script, and until the tenant publishes when it began on the file. */
  predicate AsBegun(w: World, fallback: Script, c: Customer) {
    var script := Picked(w, fallback, c).0;
    c in w.pins ==>
      && c in w.began
      && (w.began[c].published || CurrentRow(w.rows, ScriptOf(c, fallback)).None? ==>
            script == w.began[c].document && script.version == w.pins[c].version)
  }

  /** Every turn of `c` in the run. */
  predicate ServedAsBegun(w: World, fallback: Script, hs: seq<Happening>, c: Customer)
    decreases |hs|
  {
    hs != [] ==>
      && (hs[0] == Message(c) ==> AsBegun(w, fallback, c))
      && ServedAsBegun(Next(w, fallback, hs[0]), fallback, hs[1..], c)
  }

  /** Whatever of this one script is published in the run is numbered. */
  predicate NumberedRun(rows: seq<Row>, hs: seq<Happening>, key: Key)
    decreases |hs|
  {
    && Numbered(rows, key)
    && (hs != [] ==> NumberedRun(if hs[0].Edit? then Step(rows, hs[0].op) else rows, hs[1..], key))
  }

  /** What a pinned conversation rests on: the published version it began on,
      which the resolver has either not cached or cached as it is; or the file. */
  predicate PinHolds(w: World, fallback: Script, c: Customer) {
    c in w.pins ==>
      && c in w.began
      && var key, pin, document := ScriptOf(c, fallback), w.pins[c], w.began[c].document;
         if w.began[c].published then
           && pin.script == fallback.id && Published(w.rows, key, pin.version)
           && RowAt(w.rows, key, pin.version).value.body == document
           && ((key, pin.version) in w.cache ==> w.cache[(key, pin.version)] == document)
         else pin == PinTo(fallback) && document == fallback
  }

  lemma {:induction false} RowAtIsARow(rows: seq<Row>, key: Key, version: int)
    ensures RowAt(rows, key, version).Some? ==>
      var r := RowAt(rows, key, version).value; r in rows && r.key == key && r.version == version
  {
    if rows != [] {
      RowAtIsARow(rows[..|rows| - 1], key, version);
    }
  }

  /** A new conversation of a tenant that has published runs the newest
      version, and leaves it in the cache. */
  lemma CurrentPick(rows: seq<Row>, cache: Cache, fallback: Script, tenant: string)
    requires Disciplined(rows) && CurrentRow(rows, Key(tenant, fallback.id)).Some?
    ensures
      var key, row := Key(tenant, fallback.id), CurrentRow(rows, Key(tenant, fallback.id)).value;
      && ResolveCurrent(rows, cache, tenant, fallback) == (row.body, cache[(key, row.version) := row.body])
      && RowAt(rows, key, row.version) == Some(row) && row.published
      && (Numbered(rows, key) ==> row.body.id == fallback.id && row.body.version == row.version)
  {
    var key := Key(tenant, fallback.id);
    CurrentIsPublished(rows, key);
    RowAtIsARow(rows, key, CurrentRow(rows, key).value.version);
  }

  lemma PublishedStays(rows: seq<Row>, key: Key, version: int)
    requires Disciplined(rows) && Published(rows, key, version)
    ensures CurrentRow(rows, key).Some?
  {
    assert Orderly(Mine(rows, key));
    QueriesReadTheHistory(rows, key);
    RowAtReadsTheHistory(rows, key, version);
  }

  lemma TurnIsServed(w: World, fallback: Script, c: Customer)
    requires Disciplined(w.rows) && Numbered(w.rows, ScriptOf(c, fallback)) && PinHolds(w, fallback, c)
    ensures AsBegun(w, fallback, c)
  {
    var key := ScriptOf(c, fallback);
    if c in w.pins && w.began[c].published {
      PublishedStays(w.rows, key, w.pins[c].version);
      CurrentPick(w.rows, w.cache, fallback, c.tenant);
      RowAtIsARow(w.rows, key, w.pins[c].version);
    }
  }

  /** What is cached under a published version, if anything, is that version. */
  predicate CachedAsPublished(rows: seq<Row>, cache: Cache, key: Key, version: int) {
    (key, version) in cache ==>
      Published(rows, key, version) && RowAt(rows, key, version).value.body == cache[(key, version)]
  }

  lemma CurrentCaches(rows: seq<Row>, cache: Cache, fallback: Script, tenant: string, key: Key, version: int)
    requires Disciplined(rows) && CachedAsPublished(rows, cache, key, version)
    ensures CachedAsPublished(rows, ResolveCurrent(rows, cache, tenant, fallback).1, key, version)
  {
    if CurrentRow(rows, Key(tenant, fallback.id)).Some? {
      CurrentPick(rows, cache, fallback, tenant);
    }
  }

  lemma AtCaches(rows: seq<Row>, cache: Cache, asked: Key, number: int, key: Key, version: int)
    requires CachedAsPublished(rows, cache, key, version)
    requires (asked, number) == (key, version) && RowAt(rows, key, version).Some? ==> Published(rows, key, version)
    ensures CachedAsPublished(rows, ResolveAt(rows, cache, asked, number).1, key, version)
  {
  }

  lemma PickCaches(
    rows: seq<Row>, cache: Cache, fallback: Script, tenant: string, pinned: Option<Pin>, key: Key, version: int)
    requires Disciplined(rows) && CachedAsPublished(rows, cache, key, version) && Published(rows, key, version)
    ensures CachedAsPublished(rows, Pick(rows, cache, fallback, tenant, pinned).1, key, version)
  {
    var (engine, asked) := ResolveCurrent(rows, cache, tenant, fallback);
    var pin := pinned.GetOr(PinTo(engine));
    CurrentCaches(rows, cache, fallback, tenant, key, version);
    AtCaches(rows, asked, Key(tenant, pin.script), pin.version, key, version);
  }

  /** A conversation that begins is pinned to what it begins on. */
  lemma BeginningHolds(w: World, fallback: Script, c: Customer)
    requires Disciplined(w.rows) && Numbered(w.rows, ScriptOf(c, fallback)) && c !in w.pins
    ensures PinHolds(Next(w, fallback, Message(c)), fallback, c)
  {
    if CurrentRow(w.rows, ScriptOf(c, fallback)).Some? {
      CurrentPick(w.rows, w.cache, fallback, c.tenant);
    }
  }

  /** Nobody's message spoils a conversation's pin: what the resolver caches
      under a published version is that version. */
  lemma MessageKeepsPin(w: World, fallback: Script, d: Customer, c: Customer)
    requires Disciplined(w.rows) && Numbered(w.rows, ScriptOf(c, fallback)) && PinHolds(w, fallback, c)
    ensures PinHolds(Next(w, fallback, Message(d)), fallback, c)
  {
    if c !in w.pins {
      if d == c {
        BeginningHolds(w, fallback, c);
      }
    } else if w.began[c].published {
      PickCaches(w.rows, w.cache, fallback, d.tenant, if d in w.pins then Some(w.pins[d]) else None,
                 ScriptOf(c, fallback), w.pins[c].version);
    }
  }

  lemma EditKeepsPin(w: World, fallback: Script, op: Op, c: Customer)
    requires Disciplined(w.rows) && PinHolds(w, fallback, c)
    ensures Disciplined(Step(w.rows, op)) && PinHolds(Next(w, fallback, Edit(op)), fallback, c)
  {
    StepKeepsDiscipline(w.rows, op);
    if c in w.pins && w.began[c].published {
      PublishedSurvives(w.rows, op, ScriptOf(c, fallback), w.pins[c].version);
    }
  }

  /** Publishing pins. Follow one conversation through any run in which
      drafts are saved and versions published, of its own script and of
      others', between messages of any customers of any tenants. If it begins
      on a published script it is served by that document to its end and never
      refused, and if it begins on the configuration file it is until the
      tenant publishes, as long as what its tenant publishes carries its own
      number. Nothing is asked of other scripts, other conversations, or what
      else the resolver has cached. */
  lemma {:induction false} ConversationsKeepTheirScript(w: World, fallback: Script, hs: seq<Happening>, c: Customer)
    requires Disciplined(w.rows) && PinHolds(w, fallback, c)
    requires NumberedRun(w.rows, hs, ScriptOf(c, fallback))
    ensures ServedAsBegun(w, fallback, hs, c)
    decreases |hs|
  {
    if hs != [] {
      match hs[0] {
        case Edit(op) =>
          EditKeepsPin(w, fallback, op, c);
        case Message(d) =>
          TurnIsServed(w, fallback, c);
          MessageKeepsPin(w, fallback, d, c);
      }
      ConversationsKeepTheirScript(Next(w, fallback, hs[0]), fallback, hs[1..], c);
    }
  }

  /** What a run of edits and messages leaves of one conversation's pin. */
  ghost predicate KeptThrough(w: World, end: World, fallback: Script, c: Customer) {
    && Disciplined(end.rows) && Numbered(end.rows, ScriptOf(c, fallback)) && PinHolds(end, fallback, c)
    && (c in w.pins ==> c in end.pins && end.pins[c] == w.pins[c])
    && (c in w.pins && c in w.began ==> c in end.began && end.began[c] == w.began[c])
  }

  lemma {:induction false} RunKeepsPin(w: World, fallback: Script, hs: seq<Happening>, c: Customer)
    requires Disciplined(w.rows) && PinHolds(w, fallback, c)
    requires NumberedRun(w.rows, hs, ScriptOf(c, fallback))
    ensures KeptThrough(w, AfterRun(w, fallback, hs), fallback, c)
    decreases |hs|
  {
    if hs != [] {
      match hs[0] {
        case Edit(op) => EditKeepsPin(w, fallback, op, c);
        case Message(d) => MessageKeepsPin(w, fallback, d, c);
      }
      RunKeepsPin(Next(w, fallback, hs[0]), fallback, hs[1..], c);
    }
  }

  /** The same from the customer's side. A conversation's first message runs
      the newest script its tenant has published, or the configuration file;
      and after any run of edits and messages its next message runs the same
      document, whose number is still its own: always when that was a
      published script, and when it was the file, until the tenant publishes. */
  lemma LaterMessagesRunTheFirstsScript(w: World, fallback: Script, c: Customer, hs: seq<Happening>)
    requires Disciplined(w.rows) && Numbered(w.rows, ScriptOf(c, fallback)) && c !in w.pins
    requires NumberedRun(Next(w, fallback, Message(c)).rows, hs, ScriptOf(c, fallback))
    ensures
      var key, first := ScriptOf(c, fallback), Picked(w, fallback, c).0;
      var later := AfterRun(Next(w, fallback, Message(c)), fallback, hs);
      && first == (match CurrentRow(w.rows, key) case Some(row) => row.body case None => fallback)
      && c in later.pins && later.pins[c] == Pin(first.id, first.version)
      && (CurrentRow(w.rows, key).Some? || CurrentRow(later.rows, key).None? ==>
            Picked(later, fallback, c).0 == first)
  {
    var begun := Next(w, fallback, Message(c));
    BeginningHolds(w, fallback, c);
    RunKeepsPin(begun, fallback, hs, c);
    TurnIsServed(AfterRun(begun, fallback, hs), fallback, c);
  }

  /** A message changes the resolver's cache and, when it is a customer's
      first, that customer's pin; nothing else, and nobody else's. */
  lemma MessagesTouchTheirOwn(w: World, fallback: Script, c: Customer)
    ensures
      var w' := Next(w, fallback, Message(c));
      && w'.rows == w.rows && w'.cache == Picked(w, fallback, c).1
      && (c in w.pins ==> w'.pins == w.pins && w'.began == w.began)
      && w'.pins - {c} == w.pins - {c} && w'.began - {c} == w.began - {c}
  {
  }

  // ------------------------------------------------------------ where it fails

  lemma EditionIsNewest(rows: seq<Row>, key: Key, body: Script)
    requires Disciplined(rows)
    ensures
      var n := NextVersion(Mine(rows, key));
      && Disciplined(Edition(rows, key, body))
      && CurrentRow(Edition(rows, key, body), key) == Some(Row(key, n, body, true))
      && (forall v :: Published(rows, key, v) ==> v < n)
  {
    assert Orderly(Mine(rows, key));
    forall v ensures Published(rows, key, v) ==> v < NextVersion(Mine(rows, key)) {
      RowAtReadsTheHistory(rows, key, v);
    }
    EditionAdds(rows, key, body);
    assert Orderly(Mine(Edition(rows, key, body), key));
    QueriesReadTheHistory(Edition(rows, key, body), key);
  }

  /** Publishing a document moves a conversation pinned to version v exactly
      when the document itself carries the number v and is not the document of
      v: two editions with the same number inside are told apart by the store
      and not by the worker. */
  lemma PublishMovesExactlyOnAReusedNumber(w: World, fallback: Script, c: Customer, body: Script)
    requires Disciplined(w.rows) && PinHolds(w, fallback, c) && c in w.pins && w.began[c].published
    ensures
      var rows := Edition(w.rows, ScriptOf(c, fallback), body);
      Pick(rows, w.cache, fallback, c.tenant, Some(w.pins[c])).0 == w.began[c].document
      <==> body.version != w.pins[c].version || body == w.began[c].document
  {
    var key, pin := ScriptOf(c, fallback), w.pins[c];
    var rows := Edition(w.rows, key, body);
    EditionIsNewest(w.rows, key, body);
    PublishedIsForever(w.rows, [Save(key, body), Release(key)], key, pin.version);
  }

  /** What is cached under a number is what is stored under it, if anything. */
  predicate Fresh(rows: seq<Row>, cache: Cache, key: Key, version: int) {
    (key, version) in cache ==>
      RowAt(rows, key, version).Some? && RowAt(rows, key, version).value.body == cache[(key, version)]
  }

  /** A conversation begun on the configuration file, in a world where the
      resolver holds no outdated draft under the file's number. Once the tenant
      has published, it runs the tenant's version of the same number, a draft
      included, and is refused exactly when there is none, or it is not
      numbered so inside. */
  lemma FileConversationsMoveOnPublish(w: World, fallback: Script, c: Customer)
    requires Disciplined(w.rows) && PinHolds(w, fallback, c) && c in w.pins && !w.began[c].published
    requires Numbered(w.rows, ScriptOf(c, fallback))
    requires Fresh(w.rows, w.cache, ScriptOf(c, fallback), fallback.version)
    ensures
      var h, f := Mine(w.rows, ScriptOf(c, fallback)), fallback.version;
      var script := Picked(w, fallback, c).0;
      && (Newest(h).None? ==> script == fallback)
      && (Newest(h).Some? ==>
            && script == (if 1 <= f <= |h| then h[f - 1].body else Newest(h).value.body)
            && (script.version == f <==> 1 <= f <= |h| && h[f - 1].body.version == f))
  {
    var key, f := ScriptOf(c, fallback), fallback.version;
    assert Orderly(Mine(w.rows, key));
    QueriesReadTheHistory(w.rows, key);
    RowAtReadsTheHistory(w.rows, key, f);
    if CurrentRow(w.rows, key).Some? {
      CurrentPick(w.rows, w.cache, fallback, c.tenant);
      RowAtReadsTheHistory(w.rows, key, CurrentRow(w.rows, key).value.version);
    }
  }

  lemma FirstIsPublished(rows: seq<Row>, key: Key, version: int)
    requires Disciplined(rows) && CurrentRow(rows, key).Some? && version <= 1
    ensures RowAt(rows, key, version).Some? ==> Published(rows, key, version)
  {
    assert Orderly(Mine(rows, key));
    QueriesReadTheHistory(rows, key);
    RowAtReadsTheHistory(rows, key, version);
  }

  lemma PickCachesNoDraft(
    rows: seq<Row>, cache: Cache, fallback: Script, tenant: string, pinned: Option<Pin>, key: Key)
    requires Disciplined(rows) && fallback.version <= 1 && key.script == fallback.id
    requires CachedAsPublished(rows, cache, key, fallback.version)
    ensures CachedAsPublished(rows, Pick(rows, cache, fallback, tenant, pinned).1, key, fallback.version)
  {
    var (engine, asked) := ResolveCurrent(rows, cache, tenant, fallback);
    var pin := pinned.GetOr(PinTo(engine));
    CurrentCaches(rows, cache, fallback, tenant, key, fallback.version);
    if pin.version != engine.version {
      if (Key(tenant, pin.script), pin.version) == (key, fallback.version) {
        FirstIsPublished(rows, key, fallback.version);
      }
      AtCaches(rows, asked, Key(tenant, pin.script), pin.version, key, fallback.version);
    }
  }

  lemma EditCachesNoDraft(rows: seq<Row>, cache: Cache, op: Op, key: Key, version: int)
    requires Disciplined(rows) && CachedAsPublished(rows, cache, key, version)
    ensures CachedAsPublished(Step(rows, op), cache, key, version)
  {
    if (key, version) in cache {
      PublishedSurvives(rows, op, key, version);
    }
  }

  /** With a configuration file numbered 1, as they are shipped, that world is
      every world a run reaches: a draft of the file's own number is never
      asked for, since the first version is published before any other. */
  lemma {:induction false} FileNumberStaysFresh(w: World, fallback: Script, hs: seq<Happening>, tenant: string)
    requires Disciplined(w.rows) && fallback.version <= 1
    requires CachedAsPublished(w.rows, w.cache, Key(tenant, fallback.id), fallback.version)
    ensures
      var end := AfterRun(w, fallback, hs);
      CachedAsPublished(end.rows, end.cache, Key(tenant, fallback.id), fallback.version)
    decreases |hs|
  {
    if hs != [] {
      var key := Key(tenant, fallback.id);
      match hs[0] {
        case Edit(op) =>
          StepKeepsDiscipline(w.rows, op);
          EditCachesNoDraft(w.rows, w.cache, op, key, fallback.version);
        case Message(d) =>
          PickCachesNoDraft(w.rows, w.cache, fallback, d.tenant, if d in w.pins then Some(w.pins[d]) else None, key);
      }
      FileNumberStaysFresh(Next(w, fallback, hs[0]), fallback, hs[1..], tenant);
    }
  }
}
