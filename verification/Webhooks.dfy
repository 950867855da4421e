/** The webhook handlers, run one at a time against the log and the stream, and
    what a vendor that retries until 200 can rely on. */
module Webhooks {
  import opened Sequences
  import opened Channels
  import Meta
  import Protocol = WebhookProtocol

  datatype Status = OK200 | BadRequest400 | Forbidden403 | Unavailable503

  /** Log, stream and answer after one delivery. */
  datatype Delivered = Delivered(keys: set<string>, stream: seq<InboundMessage>, status: Status)

  /** The state a delivery's claim/publish/release loop leaves, from message
      `i` on, when the broker accepts the publish of message `k` exactly if
      `broker(k)`. */
  function Deliver(
    keys: set<string>, stream: seq<InboundMessage>, batch: seq<InboundMessage>, broker: nat -> bool, i: nat): Delivered
    requires i <= |batch|
    decreases |batch| - i
  {
    if i == |batch| then Delivered(keys, stream, OK200)
    else if batch[i].id in keys then Deliver(keys, stream, batch, broker, i + 1)
    else if broker(i) then
      Deliver(keys + {batch[i].id}, stream + [batch[i]], batch, broker, i + 1)
    else Delivered(keys, stream, Unavailable503)
  }

  /** A registry, a log and a stream wired into handlers. */
  class App {
    const registry: Meta.Registry
    const objects: map<string, Channel>
    const events: EventLog
    const queue: InboundQueue

    constructor (registry: Meta.Registry, objects: map<string, Channel>, events: EventLog, queue: InboundQueue)
      ensures this.registry == registry && this.objects == objects
      ensures this.events == events && this.queue == queue
    {
      this.registry, this.objects, this.events, this.queue := registry, objects, events, queue;
    }

    /** The tail of the single-message routes: WhatsApp, Telegram and email. */
    method Accept(message: InboundMessage, accepted: bool) returns (status: Status)
      modifies events, queue
      ensures Delivered(events.keys, queue.stream, status)
           == Deliver(old(events.keys), old(queue.stream), [message], _ => accepted, 0)
    {
      var isNew := events.Claim(message.id);
      assert old(events.keys) + {message.id} - {message.id} == old(events.keys) || !isNew;
      if !isNew {
        assert events.keys == old(events.keys);
        return OK200;
      }
      var ok := queue.Publish(message, accepted);
      if !ok {
        events.Release(message.id);
        return Unavailable503;
      }
      return OK200;
    }

    /** The loop of the Meta route: per message, not per request. */
    method AcceptBatch(messages: seq<InboundMessage>, broker: nat -> bool) returns (status: Status)
      modifies events, queue
      ensures Delivered(events.keys, queue.stream, status)
           == Deliver(old(events.keys), old(queue.stream), messages, broker, 0)
    {
      for i := 0 to |messages|
        invariant Deliver(events.keys, queue.stream, messages, broker, i)
               == Deliver(old(events.keys), old(queue.stream), messages, broker, 0)
      {
        ghost var before := events.keys;
        var isNew := events.Claim(messages[i].id);
        if !isNew {
          assert events.keys == before;
          continue;
        }
        var ok := queue.Publish(messages[i], broker(i));
        if !ok {
          events.Release(messages[i].id);
          assert events.keys == before;
          return Unavailable503;
        }
      }
      return OK200;
    }

    /** A whole Meta delivery. `body` is None when it is not a JSON document of
        the expected shape. */
    method MetaUpdate(body: Option<Meta.Document>, signed: bool, broker: nat -> bool) returns (status: Status)
      modifies events, queue
      ensures Delivered(events.keys, queue.stream, status)
           == MetaDelivery(registry, objects, old(events.keys), old(queue.stream), body, signed, broker)
    {
      if body.None? {
        return BadRequest400;
      }
      var document := body.value;
      var refs := Meta.AccountRefs(document);
      if refs == [] {
        return BadRequest400;
      }
      var accounts := Meta.Accounts(registry, refs);
      if accounts == [] || !signed {
        return Forbidden403;
      }
      if document.product !in objects {
        return OK200;
      }
      status := AcceptBatch(Meta.ParseAll(document.entry, accounts, objects[document.product]), broker);
    }
  }

  /** A body the route cannot read, or that names no page. */
  predicate Unreadable(body: Option<Meta.Document>) {
    body.None? || Meta.PageIds(body.value.entry) == []
  }

  function MetaDelivery(
    registry: Meta.Registry, objects: map<string, Channel>, keys: set<string>, stream: seq<InboundMessage>,
    body: Option<Meta.Document>, signed: bool, broker: nat -> bool): Delivered
  {
    if Unreadable(body) then Delivered(keys, stream, BadRequest400)
    else if !signed || Meta.Accounts(registry, FirstOccurrences(Meta.PageIds(body.value.entry), {})) == [] then
      Delivered(keys, stream, Forbidden403)
    else if body.value.product !in objects then Delivered(keys, stream, OK200)
    else
      Deliver(keys, stream, Meta.Messages(registry, body.value.entry, objects[body.value.product]), broker, 0)
  }

  // ------------------------------------------------------------ retrying until 200

  function Ids(messages: seq<InboundMessage>): seq<string> {
    if messages == [] then [] else [messages[0].id] + Ids(messages[1..])
  }

  function IdSet(messages: seq<InboundMessage>): set<string> {
    set m | m in messages :: m.id
  }

  /** The first message of each id that is not in `seen`, in order. */
  function Fresh(batch: seq<InboundMessage>, seen: set<string>): seq<InboundMessage> {
    if batch == [] then []
    else if batch[0].id in seen then Fresh(batch[1..], seen)
    else [batch[0]] + Fresh(batch[1..], seen + {batch[0].id})
  }

  /** The vendor posts the same batch again and again, until it is answered
      200 or gives up. */
  function Redeliver(
    keys: set<string>, stream: seq<InboundMessage>, batch: seq<InboundMessage>, brokers: seq<nat -> bool>): Delivered
    requires brokers != []
    decreases |brokers|
  {
    var d := Deliver(keys, stream, batch, brokers[0], 0);
    if d.status == OK200 || |brokers| == 1 then d
    else Redeliver(d.keys, d.stream, batch, brokers[1..])
  }

  lemma {:induction false} FreshOfSeen(batch: seq<InboundMessage>, seen: set<string>)
    requires forall m :: m in batch ==> m.id in seen
    ensures Fresh(batch, seen) == []
  {
    if batch != [] {
      FreshOfSeen(batch[1..], seen);
    }
  }

  /** One delivery appends the first part of what is fresh, all of it when the
      answer is 200, and leaves exactly the rest fresh. */
  lemma {:induction false} DeliverAppends(
    keys: set<string>, stream: seq<InboundMessage>, batch: seq<InboundMessage>, broker: nat -> bool, i: nat)
    returns (added: seq<InboundMessage>)
    requires i <= |batch|
    ensures
      var d := Deliver(keys, stream, batch, broker, i);
      && d.stream == stream + added && d.keys == keys + IdSet(added)
      && Fresh(batch[i..], keys) == added + Fresh(batch[i..], d.keys)
      && (d.status == OK200 ==> forall m :: m in batch[i..] ==> m.id in d.keys)
    decreases |batch| - i
  {
    var d := Deliver(keys, stream, batch, broker, i);
    if i == |batch| {
      added := [];
      assert stream + [] == stream;
    } else {
      assert batch[i..][1..] == batch[i + 1..];
      if batch[i].id in keys {
        added := DeliverAppends(keys, stream, batch, broker, i + 1);
      } else if broker(i) {
        var more := DeliverAppends(keys + {batch[i].id}, stream + [batch[i]], batch, broker, i + 1);
        added := [batch[i]] + more;
        assert stream + [batch[i]] + more == stream + added;
        assert IdSet(added) == {batch[i].id} + IdSet(more) by {
          assert forall m :: m in added <==> m == batch[i] || m in more;
        }
        assert d.keys == keys + {batch[i].id} + IdSet(more);
      } else {
        added := [];
        assert stream + [] == stream;
        assert keys + IdSet([]) == keys;
      }
    }
  }

  /** However many publishes fail on the way, a batch posted until it is
      answered 200 leaves each of its distinct ids on the stream once, in the
      order they first occur; before that, a first part of them. */
  lemma {:induction false} RetriesConverge(
    keys: set<string>, stream: seq<InboundMessage>, batch: seq<InboundMessage>, brokers: seq<nat -> bool>)
    returns (added: seq<InboundMessage>)
    requires brokers != []
    ensures
      var d := Redeliver(keys, stream, batch, brokers);
      && added <= Fresh(batch, keys)
      && d.stream == stream + added && d.keys == keys + IdSet(added)
      && (d.status == OK200 ==> added == Fresh(batch, keys))
      && Fresh(batch, keys) == added + Fresh(batch, d.keys)
    decreases |brokers|
  {
    var d := Deliver(keys, stream, batch, brokers[0], 0);
    added := DeliverAppends(keys, stream, batch, brokers[0], 0);
    assert batch[0..] == batch;
    if d.status == OK200 || |brokers| == 1 {
      if d.status == OK200 {
        FreshOfSeen(batch, d.keys);
      }
    } else {
      var more := RetriesConverge(d.keys, d.stream, batch, brokers[1..]);
      assert stream + added + more == stream + (added + more);
      assert IdSet(added + more) == IdSet(added) + IdSet(more) by {
        assert forall m :: m in added + more <==> m in added || m in more;
      }
      var last := Redeliver(d.keys, d.stream, batch, brokers[1..]);
      assert added + (more + Fresh(batch, last.keys)) == added + more + Fresh(batch, last.keys);
      added := added + more;
    }
  }

  lemma {:induction false} FreshUnseen(batch: seq<InboundMessage>, seen: set<string>)
    ensures forall m :: m in Fresh(batch, seen) ==> m.id !in seen
  {
    if batch != [] {
      FreshUnseen(batch[1..], if batch[0].id in seen then seen else seen + {batch[0].id});
    }
  }

  /** `m` is in the batch, and no message before it has its id. */
  ghost predicate IsFirst(batch: seq<InboundMessage>, m: InboundMessage) {
    exists i :: 0 <= i < |batch| && batch[i] == m && m.id !in Ids(batch[..i])
  }

  lemma FirstAfter(batch: seq<InboundMessage>, m: InboundMessage)
    requires batch != [] && IsFirst(batch[1..], m) && batch[0].id != m.id
    ensures IsFirst(batch, m)
  {
    var i :| 0 <= i < |batch[1..]| && batch[1..][i] == m && m.id !in Ids(batch[1..][..i]);
    assert batch[..i + 1] == [batch[0]] + batch[1..][..i];
    assert batch[..i + 1][1..] == batch[1..][..i];
    assert batch[i + 1] == m;
  }

  lemma {:induction false} KeptAreFirst(batch: seq<InboundMessage>, seen: set<string>)
    ensures forall m | m in Fresh(batch, seen) :: IsFirst(batch, m)
  {
    if batch != [] {
      var rest := if batch[0].id in seen then seen else seen + {batch[0].id};
      KeptAreFirst(batch[1..], rest);
      FreshUnseen(batch[1..], rest);
      forall m | m in Fresh(batch, seen) ensures IsFirst(batch, m) {
        if m in Fresh(batch[1..], rest) {
          FirstAfter(batch, m);
        } else {
          assert batch[0] == m && batch[..0] == [];
        }
      }
    }
  }

  /** What `Fresh` keeps: the ids are the distinct unseen ids in order of
      first occurrence, and each kept message is the first with its id. */
  lemma {:induction false} FreshIsFirstOccurrences(batch: seq<InboundMessage>, seen: set<string>)
    ensures Ids(Fresh(batch, seen)) == FirstOccurrences(Ids(batch), seen)
    ensures forall m | m in Fresh(batch, seen) :: IsFirst(batch, m)
  {
    KeptAreFirst(batch, seen);
    if batch != [] {
      FreshIsFirstOccurrences(batch[1..], if batch[0].id in seen then seen else seen + {batch[0].id});
    }
  }

  /** The vendor posts the same Meta delivery, signed the same way, again and
      again, until it is answered 200 or gives up. */
  function MetaRedeliver(
    registry: Meta.Registry, objects: map<string, Channel>, keys: set<string>, stream: seq<InboundMessage>,
    body: Option<Meta.Document>, signed: bool, brokers: seq<nat -> bool>): Delivered
    requires brokers != []
    decreases |brokers|
  {
    var d := MetaDelivery(registry, objects, keys, stream, body, signed, brokers[0]);
    if d.status == OK200 || |brokers| == 1 then d
    else MetaRedeliver(registry, objects, d.keys, d.stream, body, signed, brokers[1..])
  }

  /** A body that names pages, none of them connected, or that is not signed. */
  predicate Unwelcome(registry: Meta.Registry, body: Option<Meta.Document>, signed: bool) {
    !Unreadable(body)
    && (!signed || forall ref :: ref in Meta.PageIds(body.value.entry) ==> Meta.Resolve(registry, ref).None?)
  }

  lemma {:induction false} NobodyResolves(registry: Meta.Registry, refs: seq<string>)
    ensures Meta.Accounts(registry, refs) == [] <==> forall ref :: ref in refs ==> Meta.Resolve(registry, ref).None?
  {
    if refs != [] {
      NobodyResolves(registry, refs[1..]);
      assert forall ref :: ref in refs <==> ref == refs[0] || ref in refs[1..];
    }
  }

  lemma OneMetaDelivery(
    registry: Meta.Registry, objects: map<string, Channel>, keys: set<string>, stream: seq<InboundMessage>,
    body: Option<Meta.Document>, signed: bool, broker: nat -> bool)
    ensures
      var d := MetaDelivery(registry, objects, keys, stream, body, signed, broker);
      && (Unreadable(body) ==> d == Delivered(keys, stream, BadRequest400))
      && (Unwelcome(registry, body, signed) ==> d == Delivered(keys, stream, Forbidden403))
      && (!Unreadable(body) && !Unwelcome(registry, body, signed) ==>
            d == if body.value.product !in objects then Delivered(keys, stream, OK200)
                 else Deliver(keys, stream, Meta.Messages(registry, body.value.entry, objects[body.value.product]),
                              broker, 0))
  {
    if !Unreadable(body) {
      NobodyResolves(registry, FirstOccurrences(Meta.PageIds(body.value.entry), {}));
    }
  }

  /** Posting a Meta delivery is posting its batch, or refused every time. */
  lemma {:induction false} MetaRedeliverIs(
    registry: Meta.Registry, objects: map<string, Channel>, keys: set<string>, stream: seq<InboundMessage>,
    body: Option<Meta.Document>, signed: bool, brokers: seq<nat -> bool>)
    requires brokers != []
    ensures
      var d := MetaRedeliver(registry, objects, keys, stream, body, signed, brokers);
      && (Unreadable(body) ==> d == Delivered(keys, stream, BadRequest400))
      && (Unwelcome(registry, body, signed) ==> d == Delivered(keys, stream, Forbidden403))
      && (!Unreadable(body) && !Unwelcome(registry, body, signed) ==>
            d == if body.value.product !in objects then Delivered(keys, stream, OK200)
                 else Redeliver(keys, stream,
                                Meta.Messages(registry, body.value.entry, objects[body.value.product]), brokers))
    decreases |brokers|
  {
    OneMetaDelivery(registry, objects, keys, stream, body, signed, brokers[0]);
    var d := MetaDelivery(registry, objects, keys, stream, body, signed, brokers[0]);
    if d.status != OK200 && |brokers| > 1 {
      MetaRedeliverIs(registry, objects, d.keys, d.stream, body, signed, brokers[1..]);
    }
  }

  /** What is queued of a delivery: messages its customers wrote on connected
      pages, with the ids, senders and texts of their events, each account's in
      order, one per id, and none that was claimed before. */
  ghost predicate Queues(
    registry: Meta.Registry, entries: seq<Meta.Entry>, channel: Channel, keys: set<string>, added: seq<InboundMessage>)
  {
    && (forall m :: m in added ==> Meta.WasRead(registry, entries, channel, m) && m.id !in keys)
    && Meta.InOrder(entries, channel, added)
    && (forall i, j :: 0 <= i < j < |added| ==> added[i].id != added[j].id)
  }

  /** No page is named, or none that is named is connected. */
  predicate NamesNoPage(entries: seq<Meta.Entry>) {
    forall i :: 0 <= i < |entries| ==> entries[i].id == ""
  }

  predicate NoneConnected(registry: Meta.Registry, entries: seq<Meta.Entry>) {
    forall i :: 0 <= i < |entries| ==> !Meta.Connected(registry, entries[i].id)
  }

  predicate AllClaimed(registry: Meta.Registry, entries: seq<Meta.Entry>, keys: set<string>) {
    forall i, j :: 0 <= i < |entries| && 0 <= j < |entries[i].messaging| && Meta.IsPosted(registry, entries, i, j) ==>
      entries[i].messaging[j].message.value.mid in keys
  }

  /** Whatever is posted to the Meta route, from whatever the log and the stream
      hold, until it is answered 200 or given up. It is answered 400 exactly
      when it is unreadable or names no page, and 403 exactly when it is
      unsigned or none of its pages is connected. What it adds to the stream is
      what its customers wrote on connected pages and was not claimed before;
      when it is answered 200 all of that is claimed, and when 503 it is not.
      A product the platform does not know is answered 200, and adds nothing. */
  lemma MetaRetriesConverge(
    registry: Meta.Registry, objects: map<string, Channel>, keys: set<string>, stream: seq<InboundMessage>,
    body: Option<Meta.Document>, signed: bool, brokers: seq<nat -> bool>)
    returns (added: seq<InboundMessage>)
    requires brokers != []
    ensures
      var d := MetaRedeliver(registry, objects, keys, stream, body, signed, brokers);
      && d.stream == stream + added && d.keys == keys + IdSet(added)
      && (d.status == BadRequest400 <==> body.None? || NamesNoPage(body.value.entry))
      && (d.status == Forbidden403 <==>
            body.Some? && !NamesNoPage(body.value.entry) && (!signed || NoneConnected(registry, body.value.entry)))
      && (d.status in {BadRequest400, Forbidden403} ==> added == [])
      && (d.status in {OK200, Unavailable503} ==>
            var entries, product := body.value.entry, body.value.product;
            if product !in objects then d.status == OK200 && added == []
            else
              && Queues(registry, entries, objects[product], keys, added)
              && (d.status == OK200 <==> AllClaimed(registry, entries, d.keys)))
  {
    MetaRedeliverIs(registry, objects, keys, stream, body, signed, brokers);
    if body.Some? {
      Meta.PagesAreNamed(registry, body.value.entry);
    }
    if Unreadable(body) || Unwelcome(registry, body, signed) || body.value.product !in objects {
      added := [];
      assert stream + [] == stream && keys + IdSet([]) == keys;
    } else {
      added := ConnectedConverges(registry, body.value.entry, objects[body.value.product], keys, stream, brokers);
    }
  }

  lemma ConnectedConverges(
    registry: Meta.Registry, entries: seq<Meta.Entry>, channel: Channel, keys: set<string>,
    stream: seq<InboundMessage>, brokers: seq<nat -> bool>) returns (added: seq<InboundMessage>)
    requires brokers != []
    ensures
      var d := Redeliver(keys, stream, Meta.Messages(registry, entries, channel), brokers);
      && d.stream == stream + added && d.keys == keys + IdSet(added)
      && d.status in {OK200, Unavailable503}
      && Queues(registry, entries, channel, keys, added)
      && (d.status == OK200 <==> AllClaimed(registry, entries, d.keys))
  {
    var batch := Meta.Messages(registry, entries, channel);
    added := BatchConverges(keys, stream, batch, brokers);
    QueuesThePrefix(registry, entries, channel, keys, added);
    ClaimedWhenAllRead(registry, entries, channel, Redeliver(keys, stream, batch, brokers).keys);
  }

  lemma QueuesThePrefix(
    registry: Meta.Registry, entries: seq<Meta.Entry>, channel: Channel, keys: set<string>, added: seq<InboundMessage>)
    requires added <= Fresh(Meta.Messages(registry, entries, channel), keys)
    ensures Queues(registry, entries, channel, keys, added)
  {
    var batch := Meta.Messages(registry, entries, channel);
    Meta.MessagesAreTheEvents(registry, entries, channel);
    FreshCovers(batch, keys);
    FreshInOrder(entries, channel, batch, keys);
    assert forall i :: 0 <= i < |added| ==> added[i] == Fresh(batch, keys)[i];
  }

  lemma ClaimedWhenAllRead(registry: Meta.Registry, entries: seq<Meta.Entry>, channel: Channel, keys: set<string>)
    ensures AllClaimed(registry, entries, keys)
       <==> forall m :: m in Meta.Messages(registry, entries, channel) ==> m.id in keys
  {
    var batch := Meta.Messages(registry, entries, channel);
    Meta.MessagesAreTheEvents(registry, entries, channel);
    if forall m :: m in batch ==> m.id in keys {
      forall i, j | 0 <= i < |entries| && 0 <= j < |entries[i].messaging| && Meta.IsPosted(registry, entries, i, j)
        ensures entries[i].messaging[j].message.value.mid in keys
      {
        var m :| m in batch && Meta.ReadAt(entries, channel, m, i, j);
      }
    }
    if AllClaimed(registry, entries, keys) {
      forall m | m in batch ensures m.id in keys {
        var i: nat, j: nat :| Meta.ReadAt(entries, channel, m, i, j);
        Meta.ReadIsPosted(registry, entries, channel, m, i, j);
      }
    }
  }

  lemma {:induction false} FreshInOrder(
    entries: seq<Meta.Entry>, channel: Channel, batch: seq<InboundMessage>, seen: set<string>)
    requires Meta.InOrder(entries, channel, batch)
    ensures Meta.InOrder(entries, channel, Fresh(batch, seen))
  {
    if batch != [] {
      var rest := Fresh(batch[1..], if batch[0].id in seen then seen else seen + {batch[0].id});
      FreshInOrder(entries, channel, batch[1..], if batch[0].id in seen then seen else seen + {batch[0].id});
      FreshCovers(batch[1..], if batch[0].id in seen then seen else seen + {batch[0].id});
      forall q | 0 <= q < |rest| && batch[0].account == rest[q].account
        ensures Meta.Follows(entries, channel, batch[0], rest[q])
      {
        assert rest[q] in batch[1..];
        var p :| 0 <= p < |batch[1..]| && batch[1..][p] == rest[q];
        assert batch[p + 1] == rest[q];
      }
    }
  }

  lemma {:induction false} NeverTurnedAway(
    keys: set<string>, stream: seq<InboundMessage>, batch: seq<InboundMessage>, brokers: seq<nat -> bool>)
    requires brokers != []
    ensures
      var d := Redeliver(keys, stream, batch, brokers);
      d.status == OK200 || (d.status == Unavailable503 && exists m :: m in batch && m.id !in d.keys)
    decreases |brokers|
  {
    var d := Deliver(keys, stream, batch, brokers[0], 0);
    DeliverStatus(keys, stream, batch, brokers[0], 0);
    if d.status != OK200 && |brokers| > 1 {
      NeverTurnedAway(d.keys, d.stream, batch, brokers[1..]);
    }
  }

  lemma {:induction false} DeliverStatus(
    keys: set<string>, stream: seq<InboundMessage>, batch: seq<InboundMessage>, broker: nat -> bool, i: nat)
    requires i <= |batch|
    ensures
      var d := Deliver(keys, stream, batch, broker, i);
      d.status == OK200 || (d.status == Unavailable503 && exists m :: m in batch && m.id !in d.keys)
    decreases |batch| - i
  {
    if i < |batch| {
      if batch[i].id in keys {
        DeliverStatus(keys, stream, batch, broker, i + 1);
      } else if broker(i) {
        DeliverStatus(keys + {batch[i].id}, stream + [batch[i]], batch, broker, i + 1);
      } else {
        assert batch[i] in batch;
      }
    }
  }

  lemma BatchConverges(
    keys: set<string>, stream: seq<InboundMessage>, batch: seq<InboundMessage>, brokers: seq<nat -> bool>)
    returns (added: seq<InboundMessage>)
    requires brokers != []
    ensures
      var d := Redeliver(keys, stream, batch, brokers);
      && d.stream == stream + added && d.keys == keys + IdSet(added)
      && added <= Fresh(batch, keys)
      && (forall m :: m in added ==> m in batch && m.id !in keys)
      && (forall i, j :: 0 <= i < j < |added| ==> added[i].id != added[j].id)
      && (d.status == OK200 ==> forall m :: m in batch ==> m.id in d.keys)
      && (d.status == OK200 || (d.status == Unavailable503 && exists m :: m in batch && m.id !in d.keys))
  {
    added := RetriesConverge(keys, stream, batch, brokers);
    NeverTurnedAway(keys, stream, batch, brokers);
    var d := Redeliver(keys, stream, batch, brokers);
    var kept := Fresh(batch, keys);
    FreshCovers(batch, keys);
    forall i, j | 0 <= i < j < |added| ensures added[i].id != added[j].id {
      assert added[i] == kept[i] && added[j] == kept[j];
    }
    if d.status == OK200 {
      IdsAt(kept);
      forall m | m in batch && m.id !in keys ensures m.id in d.keys {
        var i :| 0 <= i < |Ids(kept)| && Ids(kept)[i] == m.id;
        assert kept[i] in added;
      }
    }
  }

  lemma FreshCovers(batch: seq<InboundMessage>, seen: set<string>)
    ensures
      var kept := Fresh(batch, seen);
      && (forall m :: m in batch ==> m.id in seen || m.id in Ids(kept))
      && (forall m :: m in kept ==> m in batch && m.id !in seen)
      && (forall i, j :: 0 <= i < j < |kept| ==> kept[i].id != kept[j].id)
  {
    var kept := Fresh(batch, seen);
    FreshIsFirstOccurrences(batch, seen);
    FreshUnseen(batch, seen);
    IdsAt(batch);
    IdsAt(kept);
    forall m | m in batch ensures m.id in seen || m.id in Ids(kept) {
      var i :| 0 <= i < |batch| && batch[i] == m;
      assert Ids(batch)[i] == m.id;
    }
    forall i, j | 0 <= i < j < |kept| ensures kept[i].id != kept[j].id {
      assert Ids(kept)[i] == kept[i].id && Ids(kept)[j] == kept[j].id;
    }
  }

  lemma {:induction false} IdsAt(s: seq<InboundMessage>)
    ensures |Ids(s)| == |s| && forall i :: 0 <= i < |s| ==> Ids(s)[i] == s[i].id
  {
    if s != [] {
      IdsAt(s[1..]);
    }
  }

  // ------------------------------------------------------------ the loop is a run of the protocol

  /** The events of a handler that runs alone. */
  function Schedule(
    keys: set<string>, batch: seq<InboundMessage>, broker: nat -> bool, h: nat, i: nat): seq<Protocol.Event>
    requires i <= |batch|
    decreases |batch| - i
  {
    if i == |batch| then [Protocol.Step(h, true)]
    else if batch[i].id in keys then [Protocol.Step(h, true)] + Schedule(keys, batch, broker, h, i + 1)
    else if broker(i) then
      [Protocol.Step(h, true), Protocol.Step(h, true)]
      + Schedule(keys + {batch[i].id}, batch, broker, h, i + 1)
    else [Protocol.Step(h, true), Protocol.Step(h, false), Protocol.Step(h, true)]
  }

  lemma {:induction false} RunSplit(w: Protocol.World, first: seq<Protocol.Event>, rest: seq<Protocol.Event>)
    requires Protocol.Valid(w)
    ensures Protocol.Run(w, first + rest) == Protocol.Run(Protocol.Run(w, first), rest)
    decreases |first|
  {
    if first == [] {
      assert first + rest == rest;
    } else {
      assert (first + rest)[1..] == first[1..] + rest;
      RunSplit(Protocol.Next(w, first[0]), first[1..], rest);
    }
  }

  /** Driven by its schedule, handler `h` leaves the log, the stream and its
      own answer as the loop does, and disturbs nothing else. */
  ghost predicate SoloRun(w: Protocol.World, h: nat, broker: nat -> bool)
    requires Protocol.Valid(w) && h < |w.handlers| && w.handlers[h].phase.Claiming?
  {
    var me := w.handlers[h];
    var w' := Protocol.Run(w, Schedule(w.claimed, me.batch, broker, h, me.phase.i));
    var d := Deliver(w.claimed, w.queue, me.batch, broker, me.phase.i);
    var last := if d.status == OK200 then w'.handlers == w.handlers[h := me.(phase := Protocol.Answered200)]
                else exists i: nat :: w'.handlers == w.handlers[h := me.(phase := Protocol.Answered503(i))];
    w'.claimed == d.keys && w'.queue == d.stream && w'.expired == w.expired && last
  }

  /** A handler that nobody interleaves with does in the protocol exactly what
      the loop does, and is answered the same. */
  lemma {:induction false} LoopIsARun(w: Protocol.World, h: nat, broker: nat -> bool)
    requires Protocol.Valid(w) && h < |w.handlers| && w.handlers[h].phase.Claiming?
    ensures SoloRun(w, h, broker)
    decreases |w.handlers[h].batch| - w.handlers[h].phase.i
  {
    var me := w.handlers[h];
    var i := me.phase.i;
    var w1 := Protocol.Next(w, Protocol.Step(h, true));
    if i == |me.batch| {
      OneStep(w, Protocol.Step(h, true));
    } else if me.batch[i].id in w.claimed {
      LoopIsARun(w1, h, broker);
      SoloSkip(w, h, broker);
    } else if broker(i) {
      LoopIsARun(Protocol.Next(w1, Protocol.Step(h, true)), h, broker);
      SoloPublish(w, h, broker);
    } else {
      SoloRefuse(w, h, broker);
    }
  }

  lemma SoloSkip(w: Protocol.World, h: nat, broker: nat -> bool)
    requires Protocol.Valid(w) && h < |w.handlers| && w.handlers[h].phase.Claiming?
    requires w.handlers[h].phase.i < |w.handlers[h].batch|
    requires w.handlers[h].batch[w.handlers[h].phase.i].id in w.claimed
    requires SoloRun(Protocol.Next(w, Protocol.Step(h, true)), h, broker)
    ensures SoloRun(w, h, broker)
  {
    var me := w.handlers[h];
    var i := me.phase.i;
    var go := Protocol.Step(h, true);
    var rest := Schedule(w.claimed, me.batch, broker, h, i + 1);
    var w1 := Protocol.Next(w, go);
    assert w1 == w.(handlers := w.handlers[h := me.(phase := Protocol.Claiming(i + 1))]);
    OneStep(w, go);
    RunSplit(w, [go], rest);
    assert Protocol.Run(w, [go] + rest) == Protocol.Run(w1, rest);
  }

  lemma SoloPublish(w: Protocol.World, h: nat, broker: nat -> bool)
    requires Protocol.Valid(w) && h < |w.handlers| && w.handlers[h].phase.Claiming?
    requires w.handlers[h].phase.i < |w.handlers[h].batch| && broker(w.handlers[h].phase.i)
    requires w.handlers[h].batch[w.handlers[h].phase.i].id !in w.claimed
    requires SoloRun(Protocol.Next(Protocol.Next(w, Protocol.Step(h, true)), Protocol.Step(h, true)), h, broker)
    ensures SoloRun(w, h, broker)
  {
    var me := w.handlers[h];
    var i := me.phase.i;
    var go := Protocol.Step(h, true);
    var w1 := Protocol.Next(w, go);
    var w2 := Protocol.Next(w1, go);
    var rest := Schedule(w.claimed + {me.batch[i].id}, me.batch, broker, h, i + 1);
    TwoSteps(w, go, go);
    RunSplit(w, [go, go], rest);
    assert w2.handlers == w.handlers[h := me.(phase := Protocol.Claiming(i + 1))];
  }

  lemma SoloRefuse(w: Protocol.World, h: nat, broker: nat -> bool)
    requires Protocol.Valid(w) && h < |w.handlers| && w.handlers[h].phase.Claiming?
    requires w.handlers[h].phase.i < |w.handlers[h].batch| && !broker(w.handlers[h].phase.i)
    requires w.handlers[h].batch[w.handlers[h].phase.i].id !in w.claimed
    ensures SoloRun(w, h, broker)
  {
    var me := w.handlers[h];
    var i := me.phase.i;
    var go, fail := Protocol.Step(h, true), Protocol.Step(h, false);
    var w2 := Protocol.Next(Protocol.Next(w, go), fail);
    var w3 := Protocol.Next(w2, go);
    TwoSteps(w, go, fail);
    OneStep(w2, go);
    assert [go, fail, go] == [go, fail] + [go];
    RunSplit(w, [go, fail], [go]);
    assert w3.claimed == w.claimed;
    assert w3.handlers == w.handlers[h := me.(phase := Protocol.Answered503(i))];
  }

  lemma TwoSteps(w: Protocol.World, e: Protocol.Event, f: Protocol.Event)
    requires Protocol.Valid(w)
    ensures Protocol.Run(w, [e, f]) == Protocol.Next(Protocol.Next(w, e), f)
  {
    assert [e, f] == [e] + [f];
    OneStep(w, e);
    OneStep(Protocol.Next(w, e), f);
    RunSplit(w, [e], [f]);
  }

  lemma OneStep(w: Protocol.World, e: Protocol.Event)
    requires Protocol.Valid(w)
    ensures Protocol.Run(w, [e]) == Protocol.Next(w, e)
  {
    assert [e][1..] == [];
  }
}
