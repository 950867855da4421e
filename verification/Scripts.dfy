/** Tenant scripts: drafted, published, and resolved for a turn. Every store
    operation is one transaction and is taken to be atomic. */
module Scripts {
  import opened Sequences
  import opened ScriptEngine

  /** A script of a tenant. A tenant's session sees only that tenant's rows. */
  datatype Key = Key(tenant: string, script: string)

  datatype Row = Row(key: Key, version: int, body: Script, published: bool)

  datatype ScriptVersion = ScriptVersion(script: string, version: int, body: Script, published: bool)

  datatype NoDraft = NoDraft

  // ------------------------------------------------------------ the queries

  /** The rows of one script, in the order they were inserted. */
  function Mine(rows: seq<Row>, key: Key): (mine: seq<Row>)
    ensures forall r :: r in mine ==> r.key == key
  {
    if rows == [] then []
    else
      var last := rows[|rows| - 1];
      Mine(rows[..|rows| - 1], key) + if last.key == key then [last] else []
  }

  /** Where the first unpublished row of the script is. */
  function DraftRow(rows: seq<Row>, key: Key): (i: Option<nat>)
    ensures i.Some? ==> i.value < |rows| && rows[i.value].key == key && !rows[i.value].published
  {
    if rows == [] then None
    else
      var before := DraftRow(rows[..|rows| - 1], key);
      var last := rows[|rows| - 1];
      if before.Some? then before
      else if last.key == key && !last.published then Some(|rows| - 1)
      else None
  }

  function Highest(rows: seq<Row>, key: Key): int {
    if rows == [] then 0
    else
      var before, last := Highest(rows[..|rows| - 1], key), rows[|rows| - 1];
      if last.key == key && last.version > before then last.version else before
  }

  function CurrentRow(rows: seq<Row>, key: Key): Option<Row> {
    if rows == [] then None
    else
      var before, last := CurrentRow(rows[..|rows| - 1], key), rows[|rows| - 1];
      if last.key == key && last.published && (before.None? || last.version > before.value.version) then Some(last)
      else before
  }

  function RowAt(rows: seq<Row>, key: Key, version: int): Option<Row> {
    if rows == [] then None
    else
      var before, last := RowAt(rows[..|rows| - 1], key, version), rows[|rows| - 1];
      if before.Some? then before
      else if last.key == key && last.version == version then Some(last)
      else None
  }

  // ------------------------------------------------------------ a script's history

  type History = seq<Row>

  predicate HasDraft(h: History) {
    h != [] && !h[|h| - 1].published
  }

  /** Versions are exactly 1, 2, ..., n and only the last may be a draft. */
  predicate Orderly(h: History) {
    forall k :: 0 <= k < |h| ==> h[k].version == k + 1 && (k < |h| - 1 ==> h[k].published)
  }

  ghost predicate Disciplined(rows: seq<Row>) {
    forall key :: Orderly(Mine(rows, key))
  }

  /** What drafting and publishing mean for a history. */
  function Drafted(h: History, key: Key, body: Script): History {
    if HasDraft(h) then h[|h| - 1 := h[|h| - 1].(body := body)] else h + [Row(key, |h| + 1, body, false)]
  }

  function Released(h: History): History
    requires HasDraft(h)
  {
    h[|h| - 1 := h[|h| - 1].(published := true)]
  }

  /** The newest published version of a history. */
  function Newest(h: History): Option<Row> {
    if h == [] then None
    else if !HasDraft(h) then Some(h[|h| - 1])
    else if |h| > 1 then Some(h[|h| - 2])
    else None
  }

  lemma OrderlyPrefix(h: History, last: Row)
    requires Orderly(h + [last])
    ensures Orderly(h) && !HasDraft(h) && last.version == |h| + 1
  {
    var all := h + [last];
    assert all[|h|] == last;
    forall k | 0 <= k < |h| ensures h[k].version == k + 1 && h[k].published {
      assert all[k] == h[k];
    }
  }

  /** On an orderly history the queries answer what their names say. */
  lemma {:induction false} QueriesReadTheHistory(rows: seq<Row>, key: Key)
    requires Orderly(Mine(rows, key))
    ensures DraftRow(rows, key).Some? <==> HasDraft(Mine(rows, key))
    ensures DraftRow(rows, key).Some? ==>
      |Mine(rows[..DraftRow(rows, key).value], key)| == |Mine(rows, key)| - 1
    ensures Highest(rows, key) == |Mine(rows, key)|
    ensures CurrentRow(rows, key) == Newest(Mine(rows, key))
  {
    if rows != [] {
      var init, last := rows[..|rows| - 1], rows[|rows| - 1];
      if last.key == key {
        assert Mine(rows, key) == Mine(init, key) + [last];
        OrderlyPrefix(Mine(init, key), last);
      } else {
        assert Mine(rows, key) == Mine(init, key);
      }
      QueriesReadTheHistory(init, key);
      var i := DraftRow(rows, key);
      if i.Some? {
        assert i.value < |init| ==> rows[..i.value] == init[..i.value];
        assert i.value == |init| ==> rows[..i.value] == init;
      }
    }
  }

  lemma {:induction false} RowAtReadsTheHistory(rows: seq<Row>, key: Key, version: int)
    requires Orderly(Mine(rows, key))
    ensures
      var h := Mine(rows, key);
      RowAt(rows, key, version) == if 1 <= version <= |h| then Some(h[version - 1]) else None
  {
    if rows != [] {
      var init, last := rows[..|rows| - 1], rows[|rows| - 1];
      if last.key == key {
        assert Mine(rows, key) == Mine(init, key) + [last];
        OrderlyPrefix(Mine(init, key), last);
      } else {
        assert Mine(rows, key) == Mine(init, key);
      }
      RowAtReadsTheHistory(init, key, version);
    }
  }

  // ------------------------------------------------------------ the store

  function SaveDraft(rows: seq<Row>, key: Key, body: Script): seq<Row> {
    match DraftRow(rows, key)
    case Some(i) => rows[i := rows[i].(body := body)]
    case None => rows + [Row(key, Highest(rows, key) + 1, body, false)]
  }

  function Publish(rows: seq<Row>, key: Key): Result<seq<Row>, NoDraft> {
    match DraftRow(rows, key)
    case Some(i) => Ok(rows[i := rows[i].(published := true)])
    case None => Err(NoDraft)
  }

  lemma {:induction false} MinePosition(rows: seq<Row>, i: nat, key: Key)
    requires i < |rows| && rows[i].key == key
    ensures |Mine(rows[..i], key)| < |Mine(rows, key)| && Mine(rows, key)[|Mine(rows[..i], key)|] == rows[i]
  {
    var init := rows[..|rows| - 1];
    if i == |init| {
      assert rows[..i] == init;
    } else {
      assert rows[..i] == init[..i];
      MinePosition(init, i, key);
    }
  }

  lemma UpdateLeft<T>(a: seq<T>, b: seq<T>, j: nat, x: T)
    requires j < |a|
    ensures (a + b)[j := x] == a[j := x] + b
  {
  }

  lemma {:induction false} OthersAfterUpdate(rows: seq<Row>, i: nat, row: Row, key: Key)
    requires i < |rows| && row.key == rows[i].key && row.key != key
    ensures Mine(rows[i := row], key) == Mine(rows, key)
  {
    var init := rows[..|rows| - 1];
    if i == |init| {
      assert rows[i := row][..|init|] == init;
    } else {
      assert rows[i := row][..|init|] == init[i := row];
      OthersAfterUpdate(init, i, row, key);
    }
  }

  lemma {:induction false} MineAfterUpdate(rows: seq<Row>, i: nat, row: Row)
    requires i < |rows| && row.key == rows[i].key
    requires |Mine(rows[..i], row.key)| < |Mine(rows, row.key)|
    ensures Mine(rows[i := row], row.key) == Mine(rows, row.key)[|Mine(rows[..i], row.key)| := row]
  {
    var init, last, key := rows[..|rows| - 1], rows[|rows| - 1], row.key;
    var after := rows[i := row];
    if i == |init| {
      assert after[..|init|] == init && rows[..i] == init;
      assert Mine(rows, key) == Mine(init, key) + [last];
      assert Mine(after, key) == Mine(init, key) + [row];
    } else {
      assert after[..|init|] == init[i := row] && rows[..i] == init[..i] && after[|init|] == last;
      var tail := if last.key == key then [last] else [];
      MinePosition(init, i, key);
      MineAfterUpdate(init, i, row);
      UpdateLeft(Mine(init, key), tail, |Mine(init[..i], key)|, row);
    }
  }

  lemma AfterUpdate(rows: seq<Row>, i: nat, row: Row, key: Key)
    requires i < |rows| && row.key == rows[i].key
    ensures row.key == key ==>
      && |Mine(rows[..i], key)| < |Mine(rows, key)| && Mine(rows, key)[|Mine(rows[..i], key)|] == rows[i]
      && Mine(rows[i := row], key) == Mine(rows, key)[|Mine(rows[..i], key)| := row]
    ensures row.key != key ==> Mine(rows[i := row], key) == Mine(rows, key)
  {
    if row.key == key {
      MinePosition(rows, i, key);
      MineAfterUpdate(rows, i, row);
    } else {
      OthersAfterUpdate(rows, i, row, key);
    }
  }

  /** Saving a draft does to every script's history what it means: the one
      draft is rewritten or a next version is opened, and no other script of
      this or another tenant is touched. */
  lemma SaveRefines(rows: seq<Row>, key: Key, body: Script, other: Key)
    requires Disciplined(rows)
    ensures Mine(SaveDraft(rows, key, body), other)
         == if other == key then Drafted(Mine(rows, key), key, body) else Mine(rows, other)
  {
    assert Orderly(Mine(rows, key));
    QueriesReadTheHistory(rows, key);
    match DraftRow(rows, key) {
      case Some(i) =>
        AfterUpdate(rows, i, rows[i].(body := body), other);
      case None =>
        var after := SaveDraft(rows, key, body);
        assert after[..|rows|] == rows;
    }
  }

  lemma PublishRefines(rows: seq<Row>, key: Key, other: Key)
    requires Disciplined(rows)
    ensures
      var r := Publish(rows, key);
      && (r.Ok? <==> HasDraft(Mine(rows, key)))
      && (r.Ok? ==>
            Mine(r.value, other) == if other == key then Released(Mine(rows, key)) else Mine(rows, other))
  {
    assert Orderly(Mine(rows, key));
    QueriesReadTheHistory(rows, key);
    match DraftRow(rows, key) {
      case Some(i) =>
        AfterUpdate(rows, i, rows[i].(published := true), other);
      case None =>
    }
  }

  datatype Op = Save(key: Key, body: Script) | Release(key: Key)

  function Step(rows: seq<Row>, op: Op): seq<Row> {
    match op
    case Save(key, body) => SaveDraft(rows, key, body)
    case Release(key) => var r := Publish(rows, key); if r.Ok? then r.value else rows
  }

  function Run(rows: seq<Row>, ops: seq<Op>): seq<Row>
    decreases |ops|
  {
    if ops == [] then rows else Run(Step(rows, ops[0]), ops[1..])
  }

  /** What one operation on a script does to its history. */
  function Stepped(h: History, key: Key, op: Op): History {
    if op.key != key then h
    else match op
      case Save(_, body) => Drafted(h, key, body)
      case Release(_) => if HasDraft(h) then Released(h) else h
  }

  lemma StepRefines(rows: seq<Row>, op: Op, key: Key)
    requires Disciplined(rows)
    ensures Mine(Step(rows, op), key) == Stepped(Mine(rows, key), key, op)
  {
    match op {
      case Save(k, body) => SaveRefines(rows, k, body, key);
      case Release(k) => PublishRefines(rows, k, key);
    }
  }

  lemma SteppedIsOrderly(h: History, key: Key, op: Op)
    requires Orderly(h)
    ensures Orderly(Stepped(h, key, op))
  {
  }

  lemma StepKeepsDiscipline(rows: seq<Row>, op: Op)
    requires Disciplined(rows)
    ensures Disciplined(Step(rows, op))
  {
    forall key ensures Orderly(Mine(Step(rows, op), key)) {
      assert Orderly(Mine(rows, key));
      StepRefines(rows, op, key);
      SteppedIsOrderly(Mine(rows, key), key, op);
    }
  }

  /** Version discipline: whatever is saved and published, in any order, a
      script's versions are exactly 1, 2, ..., n and only n may be a draft. */
  lemma {:induction false} RunKeepsDiscipline(rows: seq<Row>, ops: seq<Op>)
    requires Disciplined(rows)
    ensures Disciplined(Run(rows, ops))
    decreases |ops|
  {
    if ops != [] {
      StepKeepsDiscipline(rows, ops[0]);
      RunKeepsDiscipline(Step(rows, ops[0]), ops[1..]);
    }
  }

  lemma PublishedSurvives(rows: seq<Row>, op: Op, key: Key, version: int)
    requires Disciplined(rows)
    requires RowAt(rows, key, version).Some? && RowAt(rows, key, version).value.published
    ensures RowAt(Step(rows, op), key, version) == RowAt(rows, key, version)
  {
    assert Orderly(Mine(rows, key));
    RowAtReadsTheHistory(rows, key, version);
    StepRefines(rows, op, key);
    SteppedIsOrderly(Mine(rows, key), key, op);
    RowAtReadsTheHistory(Step(rows, op), key, version);
  }

  /** A published version is there for good, body and all. */
  lemma {:induction false} PublishedIsForever(rows: seq<Row>, ops: seq<Op>, key: Key, version: int)
    requires Disciplined(rows)
    requires RowAt(rows, key, version).Some? && RowAt(rows, key, version).value.published
    ensures RowAt(Run(rows, ops), key, version) == RowAt(rows, key, version)
    decreases |ops|
  {
    if ops != [] {
      PublishedSurvives(rows, ops[0], key, version);
      StepKeepsDiscipline(rows, ops[0]);
      PublishedIsForever(Step(rows, ops[0]), ops[1..], key, version);
    }
  }

  /** The current version never goes back, and never goes away. */
  lemma {:induction false} CurrentNeverGoesBack(rows: seq<Row>, ops: seq<Op>, key: Key)
    requires Disciplined(rows) && CurrentRow(rows, key).Some?
    ensures CurrentRow(Run(rows, ops), key).Some?
    ensures CurrentRow(rows, key).value.version <= CurrentRow(Run(rows, ops), key).value.version
    decreases |ops|
  {
    if ops != [] {
      var next := Step(rows, ops[0]);
      assert Orderly(Mine(rows, key));
      QueriesReadTheHistory(rows, key);
      StepKeepsDiscipline(rows, ops[0]);
      assert Orderly(Mine(next, key));
      QueriesReadTheHistory(next, key);
      StepRefines(rows, ops[0], key);
      CurrentNeverGoesBack(next, ops[1..], key);
    }
  }

  lemma DraftIsRewritten(rows: seq<Row>, key: Key, version: int) returns (save: Op)
    requires Disciplined(rows)
    requires RowAt(rows, key, version).Some? && !RowAt(rows, key, version).value.published
    ensures RowAt(Run(rows, [save]), key, version) != RowAt(rows, key, version)
  {
    var row := RowAt(rows, key, version).value;
    save := Save(key, row.body.(version := row.body.version + 1));
    var next := Step(rows, save);
    assert Orderly(Mine(rows, key));
    RowAtReadsTheHistory(rows, key, version);
    StepKeepsDiscipline(rows, save);
    StepRefines(rows, save, key);
    assert Orderly(Mine(next, key));
    RowAtReadsTheHistory(next, key, version);
    assert [save][1..] == [];
    assert Run(rows, [save]) == next;
  }

  /** A stored version keeps its body through every continuation exactly when
      it is published: a draft is rewritten by the next save. */
  lemma KeptExactlyWhenPublished(rows: seq<Row>, key: Key, version: int)
    requires Disciplined(rows) && RowAt(rows, key, version).Some?
    ensures RowAt(rows, key, version).value.published
       <==> forall ops :: RowAt(Run(rows, ops), key, version) == RowAt(rows, key, version)
  {
    if RowAt(rows, key, version).value.published {
      forall ops ensures RowAt(Run(rows, ops), key, version) == RowAt(rows, key, version) {
        PublishedIsForever(rows, ops, key, version);
      }
    } else {
      var save := DraftIsRewritten(rows, key, version);
      assert RowAt(Run(rows, [save]), key, version) != RowAt(rows, key, version);
    }
  }

  class ScriptStore {
    var rows: seq<Row>

    constructor ()
      ensures rows == [] && Disciplined(rows)
    {
      rows := [];
    }

    method Save(key: Key, body: Script) returns (saved: ScriptVersion)
      requires Disciplined(rows)
      modifies this
      ensures Disciplined(rows)
      ensures forall other ::
        Mine(rows, other) == if other == key then Drafted(old(Mine(rows, key)), key, body) else old(Mine(rows, other))
      ensures saved == ScriptVersion(key.script, |Mine(rows, key)|, body, false)
    {
      assert Orderly(Mine(rows, key));
      QueriesReadTheHistory(rows, key);
      forall other {
        SaveRefines(rows, key, body, other);
      }
      StepKeepsDiscipline(rows, Op.Save(key, body));
      var existing := DraftRow(rows, key);
      var version;
      if existing.Some? {
        var i := existing.value;
        MinePosition(rows, i, key);
        version := rows[i].version;
        rows := rows[i := rows[i].(body := body)];
      } else {
        version := Highest(rows, key) + 1;
        rows := rows + [Row(key, version, body, false)];
      }
      saved := ScriptVersion(key.script, version, body, false);
    }

    method Publish(key: Key) returns (published: Result<ScriptVersion, NoDraft>)
      requires Disciplined(rows)
      modifies this
      ensures Disciplined(rows)
      ensures published.Ok? <==> HasDraft(old(Mine(rows, key)))
      ensures published.Err? ==> rows == old(rows)
      ensures published.Ok? ==>
        && (forall other ::
              Mine(rows, other) == if other == key then Released(old(Mine(rows, key))) else old(Mine(rows, other)))
        && var draft := old(Mine(rows, key))[|old(Mine(rows, key))| - 1];
           published.value == ScriptVersion(key.script, draft.version, draft.body, true)
    {
      forall other {
        PublishRefines(rows, key, other);
      }
      StepKeepsDiscipline(rows, Release(key));
      var draft := DraftRow(rows, key);
      if draft.None? {
        return Err(NoDraft);
      }
      var row := rows[draft.value];
      assert Orderly(Mine(rows, key));
      QueriesReadTheHistory(rows, key);
      MinePosition(rows, draft.value, key);
      rows := rows[draft.value := row.(published := true)];
      published := Ok(ScriptVersion(key.script, row.version, row.body, true));
    }

    method Current(key: Key) returns (newest: Option<ScriptVersion>)
      requires Disciplined(rows)
      ensures
        var row := Newest(Mine(rows, key));
        newest == if row.None? then None else Some(ScriptVersion(key.script, row.value.version, row.value.body, true))
    {
      assert Orderly(Mine(rows, key));
      QueriesReadTheHistory(rows, key);
      var row := CurrentRow(rows, key);
      newest := if row.None? then None else Some(ScriptVersion(key.script, row.value.version, row.value.body, true));
    }

    method AtVersion(key: Key, version: int) returns (stored: Option<ScriptVersion>)
      requires Disciplined(rows)
      ensures
        var h := Mine(rows, key);
        stored == if 1 <= version <= |h|
                  then Some(ScriptVersion(key.script, version, h[version - 1].body, h[version - 1].published))
                  else None
    {
      assert Orderly(Mine(rows, key));
      RowAtReadsTheHistory(rows, key, version);
      var row := RowAt(rows, key, version);
      stored := if row.None? then None
                else Some(ScriptVersion(key.script, row.value.version, row.value.body, row.value.published));
    }
  }

  // ------------------------------------------------------------ the resolver

  /** Scripts already built, by script and version. */
  type Cache = map<(Key, int), Script>

  /** What a new conversation runs, and the cache afterwards: the newest
      published version, built again each time, or the file when there is none. */
  function ResolveCurrent(rows: seq<Row>, cache: Cache, tenant: string, fallback: Script): (Script, Cache) {
    var key := Key(tenant, fallback.id);
    match CurrentRow(rows, key)
    case None => (fallback, cache)
    case Some(row) => (row.body, cache[(key, row.version) := row.body])
  }

  /** What a conversation pinned to a version runs. */
  function ResolveAt(rows: seq<Row>, cache: Cache, key: Key, version: int): (Option<Script>, Cache) {
    if (key, version) in cache then (Some(cache[(key, version)]), cache)
    else
      match RowAt(rows, key, version)
      case None => (None, cache)
      case Some(row) => (Some(row.body), cache[(key, version) := row.body])
  }

  class ScriptResolver {
    const store: ScriptStore
    const fallback: Script
    var cache: Cache

    constructor (store: ScriptStore, fallback: Script)
      ensures this.store == store && this.fallback == fallback && cache == map[]
    {
      this.store, this.fallback, cache := store, fallback, map[];
    }

    method Current(tenant: string) returns (script: Script)
      requires Disciplined(store.rows)
      modifies this
      ensures (script, cache) == ResolveCurrent(store.rows, old(cache), tenant, fallback)
    {
      var key := Key(tenant, fallback.id);
      assert Orderly(Mine(store.rows, key));
      QueriesReadTheHistory(store.rows, key);
      var published := store.Current(key);
      if published.None? {
        return fallback;
      }
      script := published.value.body;
      cache := cache[(key, published.value.version) := script];
    }

    method At(key: Key, version: int) returns (script: Option<Script>)
      requires Disciplined(store.rows)
      modifies this
      ensures (script, cache) == ResolveAt(store.rows, old(cache), key, version)
    {
      if (key, version) in cache {
        return Some(cache[(key, version)]);
      }
      assert Orderly(Mine(store.rows, key));
      RowAtReadsTheHistory(store.rows, key, version);
      var stored := store.AtVersion(key, version);
      if stored.None? {
        return None;
      }
      script := Some(stored.value.body);
      cache := cache[(key, version) := stored.value.body];
    }
  }

  predicate Published(rows: seq<Row>, key: Key, version: int) {
    RowAt(rows, key, version).Some? && RowAt(rows, key, version).value.published
  }

  /** Every cached script is the body of a published version. */
  ghost predicate Truthful(rows: seq<Row>, cache: Cache) {
    forall k :: k in cache ==>
      Published(rows, k.0, k.1) && RowAt(rows, k.0, k.1).value.body == cache[k]
  }

  lemma CurrentIsPublished(rows: seq<Row>, key: Key)
    requires Disciplined(rows) && CurrentRow(rows, key).Some?
    ensures
      var row := CurrentRow(rows, key).value;
      row.published && RowAt(rows, key, row.version) == Some(row)
  {
    assert Orderly(Mine(rows, key));
    QueriesReadTheHistory(rows, key);
    RowAtReadsTheHistory(rows, key, CurrentRow(rows, key).value.version);
  }

  /** From a truthful cache the resolver answers what is stored, whatever was
      asked before. */
  lemma TruthfulAnswers(rows: seq<Row>, cache: Cache, key: Key, version: int)
    requires Truthful(rows, cache)
    ensures
      var stored := RowAt(rows, key, version);
      ResolveAt(rows, cache, key, version).0 == if stored.None? then None else Some(stored.value.body)
  {
    if (key, version) in cache {
      assert Published(rows, key, version);
    }
  }

  /** What happens to a store and a resolver in front of it. */
  datatype Event = Stored(op: Op) | AskCurrent(tenant: string) | AskAt(key: Key, version: int)

  function After(rows: seq<Row>, cache: Cache, fallback: Script, e: Event): (seq<Row>, Cache) {
    match e
    case Stored(op) => (Step(rows, op), cache)
    case AskCurrent(tenant) => (rows, ResolveCurrent(rows, cache, tenant, fallback).1)
    case AskAt(key, version) => (rows, ResolveAt(rows, cache, key, version).1)
  }

  /** No version is asked for while it is a draft. */
  predicate NoDraftAsked(rows: seq<Row>, cache: Cache, fallback: Script, events: seq<Event>)
    decreases |events|
  {
    events != [] ==>
      && (events[0].AskAt? ==>
            var stored := RowAt(rows, events[0].key, events[0].version);
            stored.None? || stored.value.published)
      && var next := After(rows, cache, fallback, events[0]);
         NoDraftAsked(next.0, next.1, fallback, events[1..])
  }

  function AfterAll(rows: seq<Row>, cache: Cache, fallback: Script, events: seq<Event>): (seq<Row>, Cache)
    decreases |events|
  {
    if events == [] then (rows, cache)
    else
      var next := After(rows, cache, fallback, events[0]);
      AfterAll(next.0, next.1, fallback, events[1..])
  }

  /** A run is its events one after another; and what is cached is answered
      without asking the store, whatever it holds by then. */
  lemma {:induction false} EventsFollow(
    rows: seq<Row>, cache: Cache, fallback: Script, events: seq<Event>, e: Event)
    ensures
      var before := AfterAll(rows, cache, fallback, events);
      && AfterAll(rows, cache, fallback, events + [e]) == After(before.0, before.1, fallback, e)
      && (e.AskAt? && (e.key, e.version) in before.1 ==>
            ResolveAt(before.0, before.1, e.key, e.version) == (Some(before.1[(e.key, e.version)]), before.1))
    decreases |events|
  {
    if events == [] {
      var next := After(rows, cache, fallback, e);
      assert [e][1..] == [];
      assert AfterAll(next.0, next.1, fallback, []) == next;
      assert events + [e] == [e];
    } else {
      var next := After(rows, cache, fallback, events[0]);
      assert (events + [e])[1..] == events[1..] + [e];
      EventsFollow(next.0, next.1, fallback, events[1..], e);
    }
  }

  lemma EventKeepsTruth(rows: seq<Row>, cache: Cache, fallback: Script, e: Event)
    requires Disciplined(rows) && Truthful(rows, cache)
    requires e.AskAt? ==> RowAt(rows, e.key, e.version).None? || Published(rows, e.key, e.version)
    ensures
      var next := After(rows, cache, fallback, e);
      Disciplined(next.0) && Truthful(next.0, next.1)
  {
    match e {
      case Stored(op) =>
        StepKeepsDiscipline(rows, op);
        forall k | k in cache
          ensures Published(Step(rows, op), k.0, k.1) && RowAt(Step(rows, op), k.0, k.1).value.body == cache[k]
        {
          assert [op][1..] == [];
          assert Run(rows, [op]) == Step(rows, op);
          PublishedIsForever(rows, [op], k.0, k.1);
        }
      case AskCurrent(tenant) =>
        if CurrentRow(rows, Key(tenant, fallback.id)).Some? {
          CurrentIsPublished(rows, Key(tenant, fallback.id));
        }
      case AskAt(key, version) =>
    }
  }

  /** Over any run in which no draft is asked for by version, the cache only
      ever holds published bodies, as they are stored. */
  lemma {:induction false} CacheStaysTruthful(
    rows: seq<Row>, cache: Cache, fallback: Script, events: seq<Event>)
    requires Disciplined(rows) && Truthful(rows, cache)
    requires NoDraftAsked(rows, cache, fallback, events)
    ensures
      var end := AfterAll(rows, cache, fallback, events);
      Disciplined(end.0) && Truthful(end.0, end.1)
    decreases |events|
  {
    if events != [] {
      EventKeepsTruth(rows, cache, fallback, events[0]);
      var next := After(rows, cache, fallback, events[0]);
      CacheStaysTruthful(next.0, next.1, fallback, events[1..]);
    }
  }

  /** No published version is served with a body other than its own. */
  ghost predicate Right(rows: seq<Row>, cache: Cache) {
    forall k :: k in cache && Published(rows, k.0, k.1) ==> RowAt(rows, k.0, k.1).value.body == cache[k]
  }

  /** Save a body over the draft, or as a new one, and publish it. */
  function Edition(rows: seq<Row>, key: Key, body: Script): seq<Row> {
    Run(rows, [Save(key, body), Release(key)])
  }

  function NextVersion(h: History): int {
    if HasDraft(h) then |h| else |h| + 1
  }

  lemma ReleasedEdition(h: History, key: Key, body: Script)
    requires Orderly(h) && forall r :: r in h ==> r.key == key
    ensures HasDraft(Drafted(h, key, body))
    ensures Released(Drafted(h, key, body)) == h[..NextVersion(h) - 1] + [Row(key, NextVersion(h), body, true)]
  {
    if HasDraft(h) {
      assert h[|h| - 1] in h;
    }
  }

  lemma EditionAdds(rows: seq<Row>, key: Key, body: Script)
    requires Disciplined(rows)
    ensures Disciplined(Edition(rows, key, body))
    ensures
      var h := Mine(rows, key);
      && NextVersion(h) <= |h| + 1
      && Mine(Edition(rows, key, body), key) == h[..NextVersion(h) - 1] + [Row(key, NextVersion(h), body, true)]
  {
    var save, release := Save(key, body), Release(key);
    var saved := Step(rows, save);
    assert [save, release][1..] == [release] && [release][1..] == [];
    assert Edition(rows, key, body) == Run(saved, [release]) == Step(saved, release);
    assert Orderly(Mine(rows, key));
    StepKeepsDiscipline(rows, save);
    StepKeepsDiscipline(saved, release);
    StepRefines(rows, save, key);
    StepRefines(saved, release, key);
    ReleasedEdition(Mine(rows, key), key, body);
  }

  lemma DraftIsRewrittenAndPublished(rows: seq<Row>, key: Key, version: int) returns (ops: seq<Op>)
    requires Disciplined(rows)
    requires RowAt(rows, key, version).Some? && !Published(rows, key, version)
    ensures Published(Run(rows, ops), key, version)
    ensures RowAt(Run(rows, ops), key, version).value.body != RowAt(rows, key, version).value.body
  {
    var row := RowAt(rows, key, version).value;
    var body := row.body.(version := row.body.version + 1);
    ops := [Save(key, body), Release(key)];
    assert Orderly(Mine(rows, key));
    RowAtReadsTheHistory(rows, key, version);
    EditionAdds(rows, key, body);
    assert Orderly(Mine(Edition(rows, key, body), key));
    RowAtReadsTheHistory(Edition(rows, key, body), key, version);
  }

  /** Asking for a version leaves a cache that no later save or publish can
      make wrong exactly when that version is absent or published. A draft is
      answered, and cached, like any other version. */
  lemma AskIsSafeExactlyOffDrafts(rows: seq<Row>, cache: Cache, key: Key, version: int)
    requires Disciplined(rows) && Truthful(rows, cache)
    ensures
      (RowAt(rows, key, version).None? || Published(rows, key, version))
      <==> forall ops :: Right(Run(rows, ops), ResolveAt(rows, cache, key, version).1)
  {
    var next := ResolveAt(rows, cache, key, version).1;
    if RowAt(rows, key, version).None? || Published(rows, key, version) {
      forall ops ensures Right(Run(rows, ops), next) {
        forall k | k in next && Published(Run(rows, ops), k.0, k.1)
          ensures RowAt(Run(rows, ops), k.0, k.1).value.body == next[k]
        {
          PublishedIsForever(rows, ops, k.0, k.1);
        }
      }
    } else {
      var ops := DraftIsRewrittenAndPublished(rows, key, version);
      assert (key, version) in next;
      assert !Right(Run(rows, ops), next);
    }
  }
}
