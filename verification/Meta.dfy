/** Meta deliveries: one POST carries entries for several pages, and the pages
    can belong to different tenants. */
module Meta {
  import opened Sequences
  import opened Channels

  datatype MetaMessage = MetaMessage(mid: string, isEcho: bool, text: string)

  /** `message` is None for a receipt, a reaction or a postback. */
  datatype Event = Event(sender: string, message: Option<MetaMessage>)

  datatype Entry = Entry(id: string, messaging: seq<Event>)

  datatype Document = Document(product: string, entry: seq<Entry>)

  /** Connected accounts by channel and vendor-facing address. */
  type Registry = r: map<(Channel, string), Account> |
      forall k :: k in r ==> r[k].channel == k.0 && r[k].ref == k.1
    witness map[]

  // ------------------------------------------------------------ resolving pages

  function PageIds(entries: seq<Entry>): seq<string> {
    if entries == [] then []
    else (if entries[0].id == "" then [] else [entries[0].id]) + PageIds(entries[1..])
  }

  lemma {:induction false} PageIdsAppend(entries: seq<Entry>, e: Entry)
    ensures PageIds(entries + [e]) == PageIds(entries) + (if e.id == "" then [] else [e.id])
  {
    if entries == [] {
      assert [e][1..] == [];
    } else {
      var first, last := if entries[0].id == "" then [] else [entries[0].id], if e.id == "" then [] else [e.id];
      assert (entries + [e])[0] == entries[0] && (entries + [e])[1..] == entries[1..] + [e];
      PageIdsAppend(entries[1..], e);
      assert first + (PageIds(entries[1..]) + last) == first + PageIds(entries[1..]) + last;
    }
  }

  /** The page ids of a delivery, each once, in order of first appearance. */
  method AccountRefs(document: Document) returns (refs: seq<string>)
    ensures refs == FirstOccurrences(PageIds(document.entry), {})
  {
    refs := [];
    for i := 0 to |document.entry|
      invariant refs == FirstOccurrences(PageIds(document.entry[..i]), {})
    {
      var e := document.entry[i];
      assert document.entry[..i + 1] == document.entry[..i] + [e];
      PageIdsAppend(document.entry[..i], e);
      assert PageIds(document.entry[..i]) + [] == PageIds(document.entry[..i]);
      if e.id != "" {
        FirstOccurrencesAppend(PageIds(document.entry[..i]), e.id, {});
        if e.id !in refs {
          refs := refs + [e.id];
        }
      }
    }
    assert document.entry[..|document.entry|] == document.entry;
  }

  /** A page is looked up as a Messenger page first, then as an Instagram one. */
  function Resolve(registry: Registry, ref: string): Option<Account> {
    if (Messenger, ref) in registry then Some(registry[(Messenger, ref)])
    else if (Instagram, ref) in registry then Some(registry[(Instagram, ref)])
    else None
  }

  function Accounts(registry: Registry, refs: seq<string>): seq<Account> {
    if refs == [] then []
    else match Resolve(registry, refs[0])
      case Some(a) => [a] + Accounts(registry, refs[1..])
      case None => Accounts(registry, refs[1..])
  }

  // ------------------------------------------------------------ reading messages

  predicate IsCustomerTurn(e: Event) {
    e.message.Some? && !e.message.value.isEcho
  }

  function Turns(events: seq<Event>, account: Account, channel: Channel): seq<InboundMessage> {
    if events == [] then []
    else
      (if IsCustomerTurn(events[0]) then
         [InboundMessage(account, channel, events[0].message.value.mid, events[0].sender,
                         events[0].message.value.text)]
       else [])
      + Turns(events[1..], account, channel)
  }

  /** What one account reads out of a delivery: the turns of its own page's entries. */
  function ParseInbound(entries: seq<Entry>, account: Account, channel: Channel): seq<InboundMessage> {
    if entries == [] then []
    else
      (if entries[0].id == account.ref then Turns(entries[0].messaging, account, channel) else [])
      + ParseInbound(entries[1..], account, channel)
  }

  function ParseAll(entries: seq<Entry>, accounts: seq<Account>, channel: Channel): seq<InboundMessage> {
    if accounts == [] then []
    else ParseInbound(entries, accounts[0], channel) + ParseAll(entries, accounts[1..], channel)
  }

  /** The messages a delivery yields: read once per resolved account. */
  function Messages(registry: Registry, entries: seq<Entry>, channel: Channel): seq<InboundMessage> {
    ParseAll(entries, Accounts(registry, FirstOccurrences(PageIds(entries), {})), channel)
  }

  // ------------------------------------------------------------ the batch is partitioned

  /** The reference reading: walk the entries once, in order, and attribute
      each one's turns to the account its own page id resolves to. */
  function ByEntry(registry: Registry, entries: seq<Entry>, channel: Channel): seq<InboundMessage> {
    if entries == [] then []
    else
      var owner := if entries[0].id == "" then None else Resolve(registry, entries[0].id);
      (match owner
       case Some(a) => Turns(entries[0].messaging, a, channel)
       case None => [])
      + ByEntry(registry, entries[1..], channel)
  }

  function OwnedBy(messages: seq<InboundMessage>, a: Account): seq<InboundMessage> {
    if messages == [] then []
    else (if messages[0].account == a then [messages[0]] else []) + OwnedBy(messages[1..], a)
  }

  lemma {:induction false} OwnedByAppend(s: seq<InboundMessage>, t: seq<InboundMessage>, a: Account)
    ensures OwnedBy(s + t, a) == OwnedBy(s, a) + OwnedBy(t, a)
  {
    if s == [] {
      assert s + t == t;
    } else {
      assert (s + t)[1..] == s[1..] + t;
      OwnedByAppend(s[1..], t, a);
    }
  }

  lemma {:induction false} TurnsOwner(events: seq<Event>, b: Account, channel: Channel, a: Account)
    ensures OwnedBy(Turns(events, b, channel), a) == if a == b then Turns(events, b, channel) else []
  {
    if events != [] {
      TurnsOwner(events[1..], b, channel, a);
      OwnedByAppend(Turns(events, b, channel)[..|Turns(events, b, channel)| - |Turns(events[1..], b, channel)|],
                    Turns(events[1..], b, channel), a);
    }
  }

  lemma {:induction false} ParseOwner(entries: seq<Entry>, b: Account, channel: Channel, a: Account)
    ensures OwnedBy(ParseInbound(entries, b, channel), a)
         == if a == b then ParseInbound(entries, b, channel) else []
  {
    if entries != [] {
      var head := if entries[0].id == b.ref then Turns(entries[0].messaging, b, channel) else [];
      TurnsOwner(entries[0].messaging, b, channel, a);
      ParseOwner(entries[1..], b, channel, a);
      OwnedByAppend(head, ParseInbound(entries[1..], b, channel), a);
    }
  }

  lemma {:induction false} AccountsContain(registry: Registry, refs: seq<string>, a: Account)
    ensures a in Accounts(registry, refs) <==> a.ref in refs && Resolve(registry, a.ref) == Some(a)
  {
    if refs != [] {
      AccountsContain(registry, refs[1..], a);
      assert forall r :: r in refs <==> r == refs[0] || r in refs[1..];
    }
  }

  lemma {:induction false} ParseAllOwner(
    registry: Registry, entries: seq<Entry>, refs: seq<string>, channel: Channel, a: Account)
    requires forall i, j :: 0 <= i < j < |refs| ==> refs[i] != refs[j]
    ensures OwnedBy(ParseAll(entries, Accounts(registry, refs), channel), a)
         == if a in Accounts(registry, refs) then ParseInbound(entries, a, channel) else []
  {
    if refs != [] {
      var rest := Accounts(registry, refs[1..]);
      ParseAllOwner(registry, entries, refs[1..], channel, a);
      match Resolve(registry, refs[0])
      case None =>
      case Some(b) =>
        assert ([b] + rest)[1..] == rest;
        ParseOwner(entries, b, channel, a);
        OwnedByAppend(ParseInbound(entries, b, channel), ParseAll(entries, rest, channel), a);
        AccountsContain(registry, refs[1..], b);
    }
  }

  lemma {:induction false} ByEntryOwner(registry: Registry, entries: seq<Entry>, channel: Channel, a: Account)
    ensures OwnedBy(ByEntry(registry, entries, channel), a)
         == if a.ref != "" && Resolve(registry, a.ref) == Some(a) then ParseInbound(entries, a, channel) else []
  {
    if entries != [] {
      var e := entries[0];
      var owner := if e.id == "" then None else Resolve(registry, e.id);
      var head := match owner case Some(b) => Turns(e.messaging, b, channel) case None => [];
      ByEntryOwner(registry, entries[1..], channel, a);
      OwnedByAppend(head, ByEntry(registry, entries[1..], channel), a);
      if owner.Some? {
        TurnsOwner(e.messaging, owner.value, channel, a);
      }
    }
  }

  lemma {:induction false} NothingForAbsentPage(entries: seq<Entry>, a: Account, channel: Channel)
    requires a.ref !in PageIds(entries) && a.ref != ""
    ensures ParseInbound(entries, a, channel) == []
  {
    if entries != [] {
      NothingForAbsentPage(entries[1..], a, channel);
    }
  }

  /** An account ends up with exactly the turns of its own page's entries, in
      order, however page ids repeat and whatever else is in the batch. */
  lemma BatchIsPartitioned(registry: Registry, entries: seq<Entry>, channel: Channel, a: Account)
    ensures OwnedBy(Messages(registry, entries, channel), a) == OwnedBy(ByEntry(registry, entries, channel), a)
  {
    var refs := FirstOccurrences(PageIds(entries), {});
    ParseAllOwner(registry, entries, refs, channel, a);
    ByEntryOwner(registry, entries, channel, a);
    AccountsContain(registry, refs, a);
    PageIdsNonEmpty(entries);
    if a.ref !in refs && a.ref != "" {
      NothingForAbsentPage(entries, a, channel);
    }
  }

  lemma {:induction false} PageIdsNonEmpty(entries: seq<Entry>)
    ensures "" !in PageIds(entries)
  {
    if entries != [] {
      PageIdsNonEmpty(entries[1..]);
    }
  }

  /** Nothing is lost, invented or read twice over the whole delivery. */
  lemma BatchIsConserved(registry: Registry, entries: seq<Entry>, channel: Channel)
    ensures multiset(Messages(registry, entries, channel)) == multiset(ByEntry(registry, entries, channel))
  {
    var s, t := Messages(registry, entries, channel), ByEntry(registry, entries, channel);
    forall m: InboundMessage
      ensures multiset(s)[m] == multiset(t)[m]
    {
      BatchIsPartitioned(registry, entries, channel, m.account);
      OwnedByKeepsCount(s, m);
      OwnedByKeepsCount(t, m);
    }
  }

  lemma {:induction false} OwnedByKeepsCount(s: seq<InboundMessage>, m: InboundMessage)
    ensures multiset(s)[m] == multiset(OwnedBy(s, m.account))[m]
  {
    if s != [] {
      assert s == [s[0]] + s[1..];
      OwnedByKeepsCount(s[1..], m);
    }
  }

  // ------------------------------------------------------------ what is read, event by event

  /** The event is a customer's message, and `m` carries what it says. */
  predicate Carries(m: InboundMessage, e: Event) {
    && e.message.Some? && !e.message.value.isEcho
    && m.id == e.message.value.mid && m.sender == e.sender && m.text == e.message.value.text
  }

  /** `m` is event `j` of entry `i`, which is for the page of m's account. */
  predicate ReadAt(entries: seq<Entry>, channel: Channel, m: InboundMessage, i: nat, j: nat) {
    && i < |entries| && j < |entries[i].messaging|
    && entries[i].id == m.account.ref && m.channel == channel && Carries(m, entries[i].messaging[j])
  }

  /** The account a page belongs to: the Messenger account of that page, else
      the Instagram one. */
  predicate Owns(registry: Registry, a: Account, page: string) {
    if (Messenger, page) in registry then a == registry[(Messenger, page)]
    else (Instagram, page) in registry && a == registry[(Instagram, page)]
  }

  predicate Connected(registry: Registry, page: string) {
    page != "" && ((Messenger, page) in registry || (Instagram, page) in registry)
  }

  /** Event `j` of entry `i` is a customer's message on a connected page. */
  predicate IsPosted(registry: Registry, entries: seq<Entry>, i: nat, j: nat) {
    && i < |entries| && j < |entries[i].messaging| && Connected(registry, entries[i].id)
    && entries[i].messaging[j].message.Some? && !entries[i].messaging[j].message.value.isEcho
  }

  ghost predicate WasRead(registry: Registry, entries: seq<Entry>, channel: Channel, m: InboundMessage) {
    && Connected(registry, m.account.ref) && Owns(registry, m.account, m.account.ref)
    && exists i: nat, j: nat :: ReadAt(entries, channel, m, i, j)
  }

  /** `n` is read at a later event than `m`. */
  ghost predicate Follows(entries: seq<Entry>, channel: Channel, m: InboundMessage, n: InboundMessage) {
    exists i: nat, j: nat, k: nat, l: nat ::
      ReadAt(entries, channel, m, i, j) && ReadAt(entries, channel, n, k, l) && (i < k || (i == k && j < l))
  }

  /** The messages of each account are in the order of their events. */
  ghost predicate InOrder(entries: seq<Entry>, channel: Channel, s: seq<InboundMessage>) {
    forall p, q :: 0 <= p < q < |s| && s[p].account == s[q].account ==> Follows(entries, channel, s[p], s[q])
  }

  /** How many of the events are customers' messages. */
  function Written(events: seq<Event>): nat {
    if events == [] then 0 else (if IsCustomerTurn(events[0]) then 1 else 0) + Written(events[1..])
  }

  /** The event that the `p`th customer's message is. */
  function Place(events: seq<Event>, p: nat): (j: nat)
    requires p < Written(events)
    ensures j < |events|
  {
    if !IsCustomerTurn(events[0]) then 1 + Place(events[1..], p)
    else if p == 0 then 0
    else 1 + Place(events[1..], p - 1)
  }

  lemma {:induction false} TurnIsAtItsPlace(events: seq<Event>, a: Account, channel: Channel, p: nat)
    requires p < |Turns(events, a, channel)|
    ensures |Turns(events, a, channel)| == Written(events)
    ensures
      var m := Turns(events, a, channel)[p];
      Carries(m, events[Place(events, p)]) && m.account == a && m.channel == channel
  {
    TurnsAreWritten(events, a, channel);
    var rest := Turns(events[1..], a, channel);
    if !IsCustomerTurn(events[0]) {
      assert Turns(events, a, channel) == rest;
      TurnIsAtItsPlace(events[1..], a, channel, p);
    } else if p > 0 {
      assert Turns(events, a, channel)[p] == rest[p - 1];
      TurnIsAtItsPlace(events[1..], a, channel, p - 1);
    }
  }

  lemma {:induction false} TurnsAreWritten(events: seq<Event>, a: Account, channel: Channel)
    ensures |Turns(events, a, channel)| == Written(events)
  {
    if events != [] {
      TurnsAreWritten(events[1..], a, channel);
    }
  }

  lemma {:induction false} PlacesAscend(events: seq<Event>, p: nat, q: nat)
    requires p < q < Written(events)
    ensures Place(events, p) < Place(events, q)
  {
    if !IsCustomerTurn(events[0]) {
      PlacesAscend(events[1..], p, q);
    } else if p > 0 {
      PlacesAscend(events[1..], p - 1, q - 1);
    }
  }

  lemma {:induction false} EventIsTurned(events: seq<Event>, a: Account, channel: Channel, j: nat)
    requires j < |events| && IsCustomerTurn(events[j])
    ensures
      var message := events[j].message.value;
      InboundMessage(a, channel, message.mid, events[j].sender, message.text) in Turns(events, a, channel)
  {
    if j > 0 {
      EventIsTurned(events[1..], a, channel, j - 1);
    }
  }

  lemma Later(entries: seq<Entry>, channel: Channel)
    requires entries != []
    ensures forall m, i: nat, j: nat :: ReadAt(entries[1..], channel, m, i, j) ==> ReadAt(entries, channel, m, i + 1, j)
  {
  }

  lemma {:induction false} ByEntryReads(registry: Registry, entries: seq<Entry>, channel: Channel)
    ensures forall m :: m in ByEntry(registry, entries, channel) ==> WasRead(registry, entries, channel, m)
  {
    if entries != [] {
      var e := entries[0];
      ByEntryReads(registry, entries[1..], channel);
      Later(entries, channel);
      forall m | m in ByEntry(registry, entries, channel) ensures WasRead(registry, entries, channel, m) {
        if m in ByEntry(registry, entries[1..], channel) {
          var i: nat, j: nat :| ReadAt(entries[1..], channel, m, i, j);
          assert ReadAt(entries, channel, m, i + 1, j);
        } else {
          var a := Resolve(registry, e.id).value;
          var p :| 0 <= p < |Turns(e.messaging, a, channel)| && Turns(e.messaging, a, channel)[p] == m;
          TurnIsAtItsPlace(e.messaging, a, channel, p);
          assert ReadAt(entries, channel, m, 0, Place(e.messaging, p));
        }
      }
    }
  }

  lemma {:induction false} ByEntryReadsAll(
    registry: Registry, entries: seq<Entry>, channel: Channel, i: nat, j: nat) returns (m: InboundMessage)
    requires IsPosted(registry, entries, i, j)
    ensures m in ByEntry(registry, entries, channel) && ReadAt(entries, channel, m, i, j)
  {
    if i == 0 {
      var a, message := Resolve(registry, entries[0].id).value, entries[0].messaging[j].message.value;
      EventIsTurned(entries[0].messaging, a, channel, j);
      m := InboundMessage(a, channel, message.mid, entries[0].messaging[j].sender, message.text);
    } else {
      m := ByEntryReadsAll(registry, entries[1..], channel, i - 1, j);
    }
  }

  /** A message of the first entry, and where it was read. */
  lemma HeadIsRead(
    registry: Registry, entries: seq<Entry>, a: Account, channel: Channel, p: nat) returns (j: nat)
    requires entries != [] && entries[0].id != "" && Resolve(registry, entries[0].id) == Some(a)
    requires p < |Turns(entries[0].messaging, a, channel)|
    ensures |Turns(entries[0].messaging, a, channel)| == Written(entries[0].messaging)
    ensures j == Place(entries[0].messaging, p)
    ensures ReadAt(entries, channel, Turns(entries[0].messaging, a, channel)[p], 0, j)
  {
    TurnIsAtItsPlace(entries[0].messaging, a, channel, p);
    j := Place(entries[0].messaging, p);
  }

  lemma HeadInOrder(registry: Registry, entries: seq<Entry>, a: Account, channel: Channel)
    requires entries != [] && entries[0].id != "" && Resolve(registry, entries[0].id) == Some(a)
    ensures InOrder(entries, channel, Turns(entries[0].messaging, a, channel))
  {
    var events := entries[0].messaging;
    var turns := Turns(events, a, channel);
    forall p, q | 0 <= p < q < |turns| ensures Follows(entries, channel, turns[p], turns[q]) {
      var j := HeadIsRead(registry, entries, a, channel, p);
      var l := HeadIsRead(registry, entries, a, channel, q);
      PlacesAscend(events, p, q);
    }
  }

  lemma RestFollows(entries: seq<Entry>, channel: Channel, m: InboundMessage, n: InboundMessage)
    requires entries != [] && Follows(entries[1..], channel, m, n)
    ensures Follows(entries, channel, m, n)
  {
    Later(entries, channel);
    var i: nat, j: nat, k: nat, l: nat :|
      ReadAt(entries[1..], channel, m, i, j) && ReadAt(entries[1..], channel, n, k, l)
      && (i < k || (i == k && j < l));
    assert ReadAt(entries, channel, m, i + 1, j) && ReadAt(entries, channel, n, k + 1, l);
  }

  lemma RestComesAfter(
    registry: Registry, entries: seq<Entry>, a: Account, channel: Channel, p: nat, n: InboundMessage)
    requires entries != [] && entries[0].id != "" && Resolve(registry, entries[0].id) == Some(a)
    requires p < |Turns(entries[0].messaging, a, channel)| && WasRead(registry, entries[1..], channel, n)
    ensures Follows(entries, channel, Turns(entries[0].messaging, a, channel)[p], n)
  {
    Later(entries, channel);
    var j := HeadIsRead(registry, entries, a, channel, p);
    var k: nat, l: nat :| ReadAt(entries[1..], channel, n, k, l);
    assert ReadAt(entries, channel, n, k + 1, l);
  }

  lemma {:induction false} ByEntryInOrder(registry: Registry, entries: seq<Entry>, channel: Channel)
    ensures InOrder(entries, channel, ByEntry(registry, entries, channel))
  {
    if entries != [] {
      var e, rest := entries[0], ByEntry(registry, entries[1..], channel);
      var owner := if e.id == "" then None else Resolve(registry, e.id);
      var head := match owner case Some(a) => Turns(e.messaging, a, channel) case None => [];
      ByEntryInOrder(registry, entries[1..], channel);
      ByEntryReads(registry, entries[1..], channel);
      if owner.Some? {
        HeadInOrder(registry, entries, owner.value, channel);
      }
      forall p, q | 0 <= p < q < |head + rest| && (head + rest)[p].account == (head + rest)[q].account
        ensures Follows(entries, channel, (head + rest)[p], (head + rest)[q])
      {
        if p >= |head| {
          RestFollows(entries, channel, rest[p - |head|], rest[q - |head|]);
        } else if q >= |head| {
          assert rest[q - |head|] in rest;
          RestComesAfter(registry, entries, owner.value, channel, p, rest[q - |head|]);
        }
      }
    }
  }

  lemma {:induction false} OwnedByHas(s: seq<InboundMessage>, a: Account, p: nat, q: nat) returns (x: nat, y: nat)
    requires p <= q < |s| && s[p].account == s[q].account == a
    ensures x <= y < |OwnedBy(s, a)| && (p < q ==> x < y)
    ensures OwnedBy(s, a)[x] == s[p] && OwnedBy(s, a)[y] == s[q]
  {
    if p > 0 {
      x, y := OwnedByHas(s[1..], a, p - 1, q - 1);
      if s[0].account == a {
        x, y := x + 1, y + 1;
      } else {
        assert OwnedBy(s, a) == OwnedBy(s[1..], a);
      }
    } else if q > 0 {
      var _, z := OwnedByHas(s[1..], a, q - 1, q - 1);
      x, y := 0, z + 1;
    } else {
      x, y := 0, 0;
    }
  }

  lemma {:induction false} OwnedByIsFrom(s: seq<InboundMessage>, a: Account, x: nat, y: nat) returns (p: nat, q: nat)
    requires x <= y < |OwnedBy(s, a)|
    ensures p <= q < |s| && (x < y ==> p < q)
    ensures OwnedBy(s, a)[x] == s[p] && OwnedBy(s, a)[y] == s[q] && s[p].account == s[q].account == a
  {
    if s[0].account != a {
      assert OwnedBy(s, a) == OwnedBy(s[1..], a);
      p, q := OwnedByIsFrom(s[1..], a, x, y);
      p, q := p + 1, q + 1;
    } else if y == 0 {
      p, q := 0, 0;
    } else {
      var from := if x == 0 then y - 1 else x - 1;
      p, q := OwnedByIsFrom(s[1..], a, from, y - 1);
      p, q := if x == 0 then 0 else p + 1, q + 1;
    }
  }

  lemma ReadIsPosted(
    registry: Registry, entries: seq<Entry>, channel: Channel, m: InboundMessage, i: nat, j: nat)
    requires ReadAt(entries, channel, m, i, j) && Connected(registry, m.account.ref)
    ensures IsPosted(registry, entries, i, j)
  {
  }

  lemma {:induction false} PageIdsHas(entries: seq<Entry>, page: string)
    ensures page in PageIds(entries) <==> page != "" && exists i :: 0 <= i < |entries| && entries[i].id == page
  {
    if entries != [] {
      PageIdsHas(entries[1..], page);
      assert entries == [entries[0]] + entries[1..];
      if page in PageIds(entries[1..]) {
        var i :| 0 <= i < |entries[1..]| && entries[1..][i].id == page;
        assert entries[i + 1].id == page;
      }
    }
  }

  /** Whether a delivery names a page, and whether one it names is connected. */
  lemma PagesAreNamed(registry: Registry, entries: seq<Entry>)
    ensures PageIds(entries) == [] <==> forall i :: 0 <= i < |entries| ==> entries[i].id == ""
    ensures (forall page :: page in PageIds(entries) ==> Resolve(registry, page).None?)
       <==> forall i :: 0 <= i < |entries| ==> !Connected(registry, entries[i].id)
  {
    var pages := PageIds(entries);
    forall page ensures page in pages <==> page != "" && exists i :: 0 <= i < |entries| && entries[i].id == page {
      PageIdsHas(entries, page);
    }
    if pages != [] {
      assert pages[0] in pages;
    }
    forall i | 0 <= i < |entries| ensures entries[i].id != "" ==> entries[i].id in pages {
    }
  }

  /** What a delivery yields, in terms of its entries and events alone. Every
      message is one that a customer wrote on a connected page: it has that
      page's account, and the event's id, sender and text. Every such event is
      read. And each account's messages are in the order of their events. */
  lemma MessagesAreTheEvents(registry: Registry, entries: seq<Entry>, channel: Channel)
    ensures
      var s := Messages(registry, entries, channel);
      && (forall m :: m in s ==> WasRead(registry, entries, channel, m))
      && InOrder(entries, channel, s)
    ensures forall i: nat, j: nat :: IsPosted(registry, entries, i, j) ==>
        exists m :: m in Messages(registry, entries, channel) && ReadAt(entries, channel, m, i, j)
  {
    var s, t := Messages(registry, entries, channel), ByEntry(registry, entries, channel);
    BatchIsConserved(registry, entries, channel);
    assert forall m :: m in s <==> m in multiset(s);
    assert forall m :: m in t <==> m in multiset(t);
    ByEntryReads(registry, entries, channel);
    ByEntryInOrder(registry, entries, channel);
    forall p, q | 0 <= p < q < |s| && s[p].account == s[q].account
      ensures Follows(entries, channel, s[p], s[q])
    {
      BatchIsPartitioned(registry, entries, channel, s[p].account);
      var x, y := OwnedByHas(s, s[p].account, p, q);
      var v, w := OwnedByIsFrom(t, s[p].account, x, y);
      assert t[v] == s[p] && t[w] == s[q];
    }
    forall i: nat, j: nat | IsPosted(registry, entries, i, j)
      ensures exists m :: m in s && ReadAt(entries, channel, m, i, j)
    {
      var m := ByEntryReadsAll(registry, entries, channel, i, j);
    }
  }
}
