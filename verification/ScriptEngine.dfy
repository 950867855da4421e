/** The deterministic half of a turn: which node, which action, which slots are
    still missing. The engine never composes text and never calls a provider. */
module ScriptEngine {
  import opened Sequences
  import opened Dialogue

  const FALLBACK := "fallback"

  datatype Node = Node(
    action: Action,
    register: Register,
    intents: seq<string>,
    requiresSlots: seq<string>,
    requiresAnySlot: seq<string>,
    optionalSlots: seq<string>,
    clarifyRegister: Option<Register>,
    askForSlot: Option<string>,
    groundingRequired: bool,
    describe: string)

  /** `order` lists the node names as the document does; `narrows` maps a slot
      to the wider slot it sits inside. */
  datatype Script = Script(
    id: string,
    version: int,
    entry: Option<string>,
    order: seq<string>,
    nodes: map<string, Node>,
    narrows: map<string, string>,
    maxClarifications: int)
  {
    predicate Valid() {
      FALLBACK in nodes && (forall n :: n in order ==> n in nodes) && (forall n :: n in nodes ==> n in order)
    }

    /** The counter's ceiling: a script that allows no clarification, or a
        negative number of them, allows none. */
    function Cap(): nat {
      if maxClarifications < 0 then 0 else maxClarifications
    }

    function Start(): State {
      State(id, version, entry, map[], 0, None)
    }
  }

  datatype EngineError = PinnedToAnotherVersion

  /** The last node in document order that lists the intent. */
  function NodeForIntent(script: Script, names: seq<string>, intent: string): (name: string)
    requires script.Valid() && forall n :: n in names ==> n in script.nodes
    ensures name in script.nodes
  {
    if names == [] then FALLBACK
    else
      var last := names[|names| - 1];
      if intent in script.nodes[last].intents then last
      else NodeForIntent(script, names[..|names| - 1], intent)
  }

  predicate Routes(script: Script, name: string, intent: string) {
    name in script.nodes && intent in script.nodes[name].intents
  }

  /** An intent is routed to the last node that lists it, and to the fallback
      when none does. */
  lemma {:induction false} IntentGoesToTheLastNodeListingIt(script: Script, names: seq<string>, intent: string)
    requires script.Valid() && forall n :: n in names ==> n in script.nodes
    ensures
      var name := NodeForIntent(script, names, intent);
      if forall k :: 0 <= k < |names| ==> !Routes(script, names[k], intent) then name == FALLBACK
      else
        exists k :: 0 <= k < |names| && names[k] == name && Routes(script, names[k], intent)
          && forall j :: k < j < |names| ==> !Routes(script, names[j], intent)
  {
    if names != [] {
      var init, last := names[..|names| - 1], |names| - 1;
      if Routes(script, names[last], intent) {
        assert names[last] == NodeForIntent(script, names, intent);
      } else {
        IntentGoesToTheLastNodeListingIt(script, init, intent);
        if k :| 0 <= k < |init| && init[k] == NodeForIntent(script, init, intent)
                && Routes(script, init[k], intent) && forall j :: k < j < |init| ==> !Routes(script, init[j], intent) {
          assert forall j :: k < j < |names| ==> j == last || names[j] == init[j];
          assert names[k] == init[k];
        }
      }
    }
  }

  /** Held slots this turn made obsolete: it names the wider slot and not the
      narrower one. */
  function Stale(script: Script, state: State, turn: Turn): set<string> {
    set s | s in script.narrows && script.narrows[s] in turn.slots && s !in turn.slots && s in state.slots
  }

  function Declared(node: Node): set<string> {
    (set s | s in node.requiresSlots) + (set s | s in node.requiresAnySlot) + (set s | s in node.optionalSlots)
  }

  /** The node that asked, when an intent-less turn supplies a slot it reads. */
  function Resumes(script: Script, state: State, turn: Turn): Option<string> {
    if turn.intent.Some? || turn.slots == map[] || state.node.None? then None
    else
      var name := state.node.value;
      if name in script.nodes && Declared(script.nodes[name]) * turn.slots.Keys != {} then Some(name) else None
  }

  function Missing(wanted: seq<string>, slots: Slots): (m: seq<string>)
    ensures forall s :: s in m <==> s in wanted && s !in slots
    ensures |m| <= |wanted|
  {
    if wanted == [] then []
    else (if wanted[0] in slots then [] else [wanted[0]]) + Missing(wanted[1..], slots)
  }

  function ClarifyAt(
    script: Script, state: State, name: string, missing: seq<string>, gateClosed: bool): Decision
    requires name in script.nodes
  {
    var node := script.nodes[name];
    Decision(Clarify, node.clarifyRegister.GetOr(node.register), name, state.CountClarification(name),
             missing, if missing != [] then node.askForSlot else None, false, gateClosed)
  }

  function HandoffAt(script: Script, state: State, name: string): Decision
    requires name in script.nodes
  {
    Decision(Handoff, script.nodes[name].register, name, state.ResetClarifications(name), [], None, false, false)
  }

  /** Where the turn lands, before anything is asked of the node. */
  function Route(script: Script, state: State, turn: Turn): (name: string)
    requires script.Valid()
    ensures name in script.nodes
  {
    var here := state.node.GetOr("");
    if turn.intent.None? && turn.cleared != {} && state.node.Some? && here in script.nodes then here
    else
      match Resumes(script, state, turn)
      case Some(asked) => asked
      case None => NodeForIntent(script, script.order, turn.intent.GetOr(""))
  }

  function Merge(script: Script, state: State, turn: Turn): State {
    state.WithSlots(turn.slots, turn.cleared + Stale(script, state, turn))
  }

  predicate Uncertain(turn: Turn, threshold: real) {
    turn.confidence.Some? && turn.confidence.value < threshold
  }

  predicate AnyHeld(wanted: seq<string>, slots: Slots) {
    exists s :: s in wanted && s in slots
  }

  function Advance(script: Script, threshold: real, state: State, turn: Turn): Result<Decision, EngineError>
    requires script.Valid()
  {
    if state.version != script.version then Err(PinnedToAnotherVersion)
    else
      Ok(Decide(script, threshold, Merge(script, state, turn), Route(script, state, turn), turn))
  }

  /** The ordered branches of a turn, from the merged state and the node. */
  function Decide(script: Script, threshold: real, state: State, name: string, turn: Turn): Decision
    requires script.Valid() && name in script.nodes
  {
    var node := script.nodes[name];
    var missing := Missing(node.requiresSlots, state.slots);
    if turn.handoffRequested then HandoffAt(script, state, name)
    else if state.clarifications >= script.maxClarifications then HandoffAt(script, state, name)
    else if node.action == Handoff then HandoffAt(script, state, name)
    else if missing != [] then ClarifyAt(script, state, name, missing, false)
    else if node.requiresAnySlot != [] && !AnyHeld(node.requiresAnySlot, state.slots) then
      ClarifyAt(script, state, name, node.requiresAnySlot, false)
    else if node.action == Answer && (!turn.grounded || Uncertain(turn, threshold)) then
      ClarifyAt(script, state, FALLBACK, [], true)
    else if node.action == Clarify then ClarifyAt(script, state, name, [], false)
    else
      Decision(node.action, node.register, name, state.ResetClarifications(name), [], None,
               node.groundingRequired, false)
  }

  // ------------------------------------------------------------ where a turn lands

  /** `name` is the last node of the document that lists the intent, or the
      fallback when none does. */
  ghost predicate ListsItLast(script: Script, intent: string, name: string) {
    if forall k :: 0 <= k < |script.order| ==> !Routes(script, script.order[k], intent) then name == FALLBACK
    else
      exists k :: 0 <= k < |script.order| && script.order[k] == name && Routes(script, script.order[k], intent)
        && forall j :: k < j < |script.order| ==> !Routes(script, script.order[j], intent)
  }

  /** The turn names no intent and takes something back: the last request,
      without it. */
  predicate Narrows(script: Script, state: State, turn: Turn) {
    turn.intent.None? && turn.cleared != {} && state.node.Some? && state.node.value in script.nodes
  }

  /** The turn names no intent and supplies a slot that the held node declares. */
  predicate Supplies(script: Script, state: State, turn: Turn) {
    && turn.intent.None? && state.node.Some? && state.node.value in script.nodes
    && var node := script.nodes[state.node.value];
       exists slot :: slot in turn.slots
         && (slot in node.requiresSlots || slot in node.requiresAnySlot || slot in node.optionalSlots)
  }

  /** The node a turn is about: the one the conversation is at when the turn
      goes on with it, else the one its intent names. */
  ghost predicate Lands(script: Script, state: State, turn: Turn, name: string) {
    if Narrows(script, state, turn) || Supplies(script, state, turn) then state.node == Some(name)
    else ListsItLast(script, turn.intent.GetOr(""), name)
  }

  lemma LandsExactlyAtRoute(script: Script, state: State, turn: Turn, name: string)
    requires script.Valid()
    ensures Lands(script, state, turn, name) <==> name == Route(script, state, turn)
  {
    IntentGoesToTheLastNodeListingIt(script, script.order, turn.intent.GetOr(""));
    ResumesExactlyWhenSupplied(script, state, turn);
    LastListingIsOne(script, turn.intent.GetOr(""), name, NodeForIntent(script, script.order, turn.intent.GetOr("")));
  }

  lemma LastListingIsOne(script: Script, intent: string, one: string, other: string)
    requires ListsItLast(script, intent, other)
    ensures ListsItLast(script, intent, one) <==> one == other
  {
    if
      && ListsItLast(script, intent, one)
      && exists k :: 0 <= k < |script.order| && Routes(script, script.order[k], intent)
    {
      var k :| 0 <= k < |script.order| && script.order[k] == one && Routes(script, script.order[k], intent)
               && forall j :: k < j < |script.order| ==> !Routes(script, script.order[j], intent);
      var l :| 0 <= l < |script.order| && script.order[l] == other && Routes(script, script.order[l], intent)
               && forall j :: l < j < |script.order| ==> !Routes(script, script.order[j], intent);
      assert k == l;
    }
  }

  lemma ResumesExactlyWhenSupplied(script: Script, state: State, turn: Turn)
    ensures Resumes(script, state, turn).Some? <==> Supplies(script, state, turn)
    ensures Resumes(script, state, turn).Some? ==> Resumes(script, state, turn) == state.node
  {
    if Supplies(script, state, turn) {
      var node := script.nodes[state.node.value];
      var slot :| slot in turn.slots
        && (slot in node.requiresSlots || slot in node.requiresAnySlot || slot in node.optionalSlots);
      assert slot in Declared(node) * turn.slots.Keys;
    }
    if Resumes(script, state, turn).Some? {
      var slot :| slot in Declared(script.nodes[state.node.value]) * turn.slots.Keys;
    }
  }

  // ------------------------------------------------------------ the gate

  /** What is held after a turn: what it says, and what was held before, unless
      it was taken back or the turn names the wider slot it sits inside. */
  predicate Held(script: Script, state: State, turn: Turn, slot: string) {
    || slot in turn.slots
    || (slot in state.slots && slot !in turn.cleared
        && !(slot in script.narrows && script.narrows[slot] in turn.slots))
  }

  /** A human was asked for, or the customer was asked to clarify too often. */
  predicate GivenUp(script: Script, state: State, turn: Turn) {
    turn.handoffRequested || state.clarifications >= script.maxClarifications
  }

  /** Every slot the node requires is held, and one of its alternatives. */
  predicate Equipped(script: Script, state: State, turn: Turn, name: string)
    requires name in script.nodes
  {
    var node := script.nodes[name];
    && (forall slot :: slot in node.requiresSlots ==> Held(script, state, turn, slot))
    && (node.requiresAnySlot == [] || exists slot :: slot in node.requiresAnySlot && Held(script, state, turn, slot))
  }

  predicate Evident(turn: Turn, threshold: real) {
    turn.grounded && (turn.confidence.Some? ==> turn.confidence.value >= threshold)
  }

  /** The turn asks for an answer that the node it lands on can give. */
  ghost predicate Allowed(script: Script, state: State, turn: Turn) {
    && state.version == script.version && !GivenUp(script, state, turn)
    && exists name :: name in script.nodes && Lands(script, state, turn, name)
         && script.nodes[name].action == Answer && Equipped(script, state, turn, name)
  }

  /** When the engine lets a turn reach composition: exactly when no human was
      asked for, the clarification limit is not reached, the node it lands on
      answers, every slot it reads is held, and there is evidence to answer
      from. */
  ghost predicate MayAnswer(script: Script, threshold: real, state: State, turn: Turn) {
    Allowed(script, state, turn) && Evident(turn, threshold)
  }

  predicate Asks(script: Script, state: State, turn: Turn, name: string, slot: string)
    requires name in script.nodes
  {
    slot in script.nodes[name].requiresSlots && !Held(script, state, turn, slot)
  }

  /** What a clarification at a node asks for: the required slots that are not
      held, in the document's order; when there are none, all the alternatives
      if none is held; else nothing. */
  ghost predicate AsksFor(script: Script, state: State, turn: Turn, name: string, missing: seq<string>)
    requires name in script.nodes
  {
    var node := script.nodes[name];
    if forall slot :: slot in node.requiresSlots ==> Held(script, state, turn, slot) then
      missing == if Equipped(script, state, turn, name) then [] else node.requiresAnySlot
    else
      && (forall slot :: slot in missing <==> Asks(script, state, turn, name, slot))
      && Subsequence(missing, node.requiresSlots)
  }

  lemma {:induction false} MissingIsASubsequence(wanted: seq<string>, slots: Slots)
    ensures Subsequence(Missing(wanted, slots), wanted)
  {
    if wanted != [] {
      MissingIsASubsequence(wanted[1..], slots);
      if wanted[0] in slots {
        assert Missing(wanted, slots) == Missing(wanted[1..], slots);
        SubsequenceOfMore(Missing(wanted[1..], slots), wanted);
      } else {
        assert ([wanted[0]] + Missing(wanted[1..], slots))[1..] == Missing(wanted[1..], slots);
      }
    }
  }

  lemma HeldIsMerged(script: Script, state: State, turn: Turn, slot: string)
    ensures slot in Merge(script, state, turn).slots <==> Held(script, state, turn, slot)
  {
    MergedSlots(script, state, turn, slot);
  }

  lemma AsksForWhatIsMissing(script: Script, state: State, turn: Turn, name: string)
    requires name in script.nodes
    ensures
      var node, slots := script.nodes[name], Merge(script, state, turn).slots;
      var missing := Missing(node.requiresSlots, slots);
      var nothing := node.requiresAnySlot != [] && !AnyHeld(node.requiresAnySlot, slots);
      && (Equipped(script, state, turn, name) <==> missing == [] && !nothing)
      && AsksFor(script, state, turn, name, if missing == [] && nothing then node.requiresAnySlot else missing)
  {
    var node, slots := script.nodes[name], Merge(script, state, turn).slots;
    forall slot ensures slot in slots <==> Held(script, state, turn, slot) {
      HeldIsMerged(script, state, turn, slot);
    }
    var missing := Missing(node.requiresSlots, slots);
    MissingIsASubsequence(node.requiresSlots, slots);
    if missing != [] {
      assert missing[0] in missing;
    }
  }

  /** The whole decision of a turn that lands on `name`. */
  predicate DecidedAt(script: Script, threshold: real, state: State, turn: Turn, name: string, d: Decision)
    requires name in script.nodes
  {
    var node, over := script.nodes[name], GivenUp(script, state, turn);
    var ready := !over && Equipped(script, state, turn, name);
    && (d.action == Handoff <==> over || node.action == Handoff)
    && (d.action == Refuse <==> ready && node.action == Refuse)
    && (d.action == Answer <==> ready && node.action == Answer && Evident(turn, threshold))
    && (d.gateClosed <==> ready && node.action == Answer && !Evident(turn, threshold))
    && (d.groundingRequired <==> d.action in {Answer, Refuse} && node.groundingRequired)
  }

  /** A decision is about its own node: the register to speak in, and the slot
      to name when something is asked for. */
  predicate SpeaksFor(script: Script, d: Decision)
    requires d.node in script.nodes
  {
    var node := script.nodes[d.node];
    && d.register == (if d.action == Clarify then node.clarifyRegister.GetOr(node.register) else node.register)
    && d.askForSlot == (if d.missing == [] then None else node.askForSlot)
  }

  /** A decision asks at the node the turn landed on, and for nothing when the
      gate is closed, which is at the fallback. */
  ghost predicate AsksAt(script: Script, state: State, turn: Turn, name: string, d: Decision)
    requires name in script.nodes
  {
    && d.node == (if d.gateClosed then FALLBACK else name)
    && (if d.action == Clarify && !d.gateClosed then AsksFor(script, state, turn, name, d.missing)
        else d.missing == [])
  }

  lemma DecidesTheAction(script: Script, threshold: real, state: State, turn: Turn, name: string)
    requires script.Valid() && name in script.nodes
    ensures
      var d := Decide(script, threshold, Merge(script, state, turn), name, turn);
      && DecidedAt(script, threshold, state, turn, name, d)
      && d.state.node == Some(d.node) && d.state.slots == Merge(script, state, turn).slots
  {
    AsksForWhatIsMissing(script, state, turn, name);
  }

  lemma DecisionsSpeakForTheirNode(script: Script, threshold: real, merged: State, name: string, turn: Turn)
    requires script.Valid() && name in script.nodes
    ensures
      var d := Decide(script, threshold, merged, name, turn);
      d.node in script.nodes && SpeaksFor(script, d)
  {
  }

  lemma DecidesWhatToAsk(script: Script, threshold: real, state: State, turn: Turn, name: string)
    requires script.Valid() && name in script.nodes
    ensures AsksAt(script, state, turn, name, Decide(script, threshold, Merge(script, state, turn), name, turn))
  {
    var node, merged := script.nodes[name], Merge(script, state, turn);
    AsksForWhatIsMissing(script, state, turn, name);
    var missing := Missing(node.requiresSlots, merged.slots);
    var nothing := node.requiresAnySlot != [] && !AnyHeld(node.requiresAnySlot, merged.slots);
    ClarifiesForWhatIsMissing(script, threshold, merged, name, turn,
                              if missing == [] && nothing then node.requiresAnySlot else missing);
  }

  lemma ClarifiesForWhatIsMissing(
    script: Script, threshold: real, merged: State, name: string, turn: Turn, asked: seq<string>)
    requires script.Valid() && name in script.nodes
    requires
      var node := script.nodes[name];
      var missing := Missing(node.requiresSlots, merged.slots);
      asked == if missing == [] && node.requiresAnySlot != [] && !AnyHeld(node.requiresAnySlot, merged.slots)
               then node.requiresAnySlot else missing
    ensures
      var d := Decide(script, threshold, merged, name, turn);
      && d.node == (if d.gateClosed then FALLBACK else name)
      && d.missing == (if d.action == Clarify && !d.gateClosed then asked else [])
  {
  }

  /** Every decision, from the document, the conversation and the turn alone. */
  lemma DecidesExactly(script: Script, threshold: real, state: State, turn: Turn, name: string)
    requires script.Valid() && Lands(script, state, turn, name)
    ensures name in script.nodes
    ensures
      var r := Advance(script, threshold, state, turn);
      && (r.Ok? <==> state.version == script.version)
      && (r.Ok? ==>
            && DecidedAt(script, threshold, state, turn, name, r.value)
            && AsksAt(script, state, turn, name, r.value) && SpeaksFor(script, r.value)
            && r.value.state.node == Some(r.value.node)
            && forall slot :: (slot in r.value.state.slots <==> Held(script, state, turn, slot))
                 && (slot in r.value.state.slots ==>
                       r.value.state.slots[slot]
                       == if slot in turn.slots then turn.slots[slot] else state.slots[slot]))
  {
    LandsExactlyAtRoute(script, state, turn, name);
    DecidesTheAction(script, threshold, state, turn, name);
    DecidesWhatToAsk(script, threshold, state, turn, name);
    DecisionsSpeakForTheirNode(script, threshold, Merge(script, state, turn), name, turn);
    forall slot
      ensures
        var after := Merge(script, state, turn).slots;
        && (slot in after <==> Held(script, state, turn, slot))
        && (slot in after ==> after[slot] == if slot in turn.slots then turn.slots[slot] else state.slots[slot])
    {
      MergedSlots(script, state, turn, slot);
    }
  }

  lemma LandsSomewhere(script: Script, state: State, turn: Turn)
    requires script.Valid()
    ensures Lands(script, state, turn, Route(script, state, turn))
  {
    LandsExactlyAtRoute(script, state, turn, Route(script, state, turn));
  }

  lemma AllowedAtRoute(script: Script, state: State, turn: Turn)
    requires script.Valid()
    ensures
      var name := Route(script, state, turn);
      Allowed(script, state, turn) <==>
        && state.version == script.version && !GivenUp(script, state, turn)
        && script.nodes[name].action == Answer && Equipped(script, state, turn, name)
  {
    LandsSomewhere(script, state, turn);
    forall name | Lands(script, state, turn, name) ensures name == Route(script, state, turn) {
      LandsExactlyAtRoute(script, state, turn, name);
    }
  }

  lemma AnswersExactlyWhenAllowed(script: Script, threshold: real, state: State, turn: Turn)
    requires script.Valid()
    ensures
      var r := Advance(script, threshold, state, turn);
      (r.Ok? && r.value.action == Answer) <==> MayAnswer(script, threshold, state, turn)
  {
    AllowedAtRoute(script, state, turn);
    LandsSomewhere(script, state, turn);
    DecidesExactly(script, threshold, state, turn, Route(script, state, turn));
  }

  /** What an answering decision carries: its node answers and every slot the
      node requires is held in the state that is kept. */
  lemma AnswerHoldsItsSlots(script: Script, threshold: real, state: State, turn: Turn, d: Decision)
    requires script.Valid()
    requires Advance(script, threshold, state, turn) == Ok(d) && d.action == Answer
    ensures d.node in script.nodes && script.nodes[d.node].action == Answer
    ensures forall s :: s in script.nodes[d.node].requiresSlots ==> s in d.state.slots
    ensures Evident(turn, threshold) && !turn.handoffRequested
  {
    AnswersExactlyWhenAllowed(script, threshold, state, turn);
  }

  /** What is held after a turn, slot by slot: what the turn says wins; a held
      slot stays unless it was taken back, or the turn names the wider slot it
      sits inside. */
  lemma MergedSlots(script: Script, state: State, turn: Turn, slot: string)
    ensures
      var after := Merge(script, state, turn).slots;
      var stays := slot in state.slots && slot !in turn.cleared
                   && !(slot in script.narrows && script.narrows[slot] in turn.slots);
      && (slot in after <==> slot in turn.slots || stays)
      && (slot in after ==> after[slot] == if slot in turn.slots then turn.slots[slot] else state.slots[slot])
  {
    var gone := turn.cleared + Stale(script, state, turn);
    assert slot in state.slots - gone <==> slot in state.slots && slot !in gone;
  }

  /** The evidence gate closes exactly on a turn that asks nothing more of the
      customer: the node it lands on answers and has its slots, and what is
      missing is evidence. It is then a clarification at the fallback node. */
  lemma GateClosesExactly(script: Script, threshold: real, state: State, turn: Turn, d: Decision)
    requires script.Valid() && Advance(script, threshold, state, turn) == Ok(d)
    ensures d.gateClosed <==> Allowed(script, state, turn) && !Evident(turn, threshold)
    ensures d.gateClosed ==> d.action == Clarify && d.node == FALLBACK && d.missing == []
  {
    AllowedAtRoute(script, state, turn);
    LandsSomewhere(script, state, turn);
    DecidesExactly(script, threshold, state, turn, Route(script, state, turn));
  }

  // ------------------------------------------------------------ whole conversations

  function Play(script: Script, threshold: real, state: State, turns: seq<Turn>): Result<seq<Decision>, EngineError>
    requires script.Valid()
    decreases |turns|
  {
    if turns == [] then Ok([])
    else match Advance(script, threshold, state, turns[0])
      case Err(e) => Err(e)
      case Ok(d) =>
        match Play(script, threshold, d.state, turns[1..])
        case Err(e) => Err(e)
        case Ok(rest) => Ok([d] + rest)
  }

  predicate Good(script: Script, state: State) {
    state.version == script.version && state.clarifications <= script.Cap()
  }

  /** What every turn keeps. */
  lemma TurnKeeps(script: Script, threshold: real, state: State, turn: Turn)
    requires script.Valid() && Good(script, state)
    ensures
      var r := Advance(script, threshold, state, turn);
      && r.Ok?
      && Good(script, r.value.state)
      && r.value.node in script.nodes && r.value.state.node == Some(r.value.node)
      && r.value.state.scriptId == state.scriptId
      && r.value.state.version == state.version
      && r.value.state.quotedUnit == state.quotedUnit
      && r.value.state.clarifications == (if r.value.action == Clarify then state.clarifications + 1 else 0)
  {
    DecideKeeps(script, threshold, Merge(script, state, turn), Route(script, state, turn), turn);
  }

  lemma DecideKeeps(script: Script, threshold: real, merged: State, name: string, turn: Turn)
    requires script.Valid() && name in script.nodes
    ensures
      var d := Decide(script, threshold, merged, name, turn);
      && d.node in script.nodes
      && d.state == merged.(node := Some(d.node), clarifications := d.state.clarifications)
      && d.state.clarifications == (if d.action == Clarify then merged.clarifications + 1 else 0)
      && (d.action == Clarify ==> merged.clarifications < script.maxClarifications)
  {
  }

  function Clarifications(ds: seq<Decision>): nat {
    if ds == [] then 0 else (if ds[0].action == Clarify then 1 else 0) + Clarifications(ds[1..])
  }

  /** Along any conversation the cursor stays on a real node, the counter under
      its ceiling, and the pinned script and the quoted unit where they were. */
  lemma {:induction false} ConversationKeeps(script: Script, threshold: real, state: State, turns: seq<Turn>)
    requires script.Valid() && Good(script, state)
    ensures
      var r := Play(script, threshold, state, turns);
      && r.Ok? && |r.value| == |turns|
      && forall i :: 0 <= i < |turns| ==>
           && Good(script, r.value[i].state)
           && r.value[i].node in script.nodes && r.value[i].state.node == Some(r.value[i].node)
           && r.value[i].state.scriptId == state.scriptId
           && r.value[i].state.version == state.version
           && r.value[i].state.quotedUnit == state.quotedUnit
    decreases |turns|
  {
    if turns != [] {
      TurnKeeps(script, threshold, state, turns[0]);
      var d := Advance(script, threshold, state, turns[0]).value;
      ConversationKeeps(script, threshold, d.state, turns[1..]);
    }
  }

  /** Of n turns played from a counter at c, `clarified` were clarifications;
      each of the others pays for at most `cap` of them, and so does the end. */
  predicate Paid(cap: nat, c: nat, clarified: nat, n: nat) {
    clarified <= n && c + clarified <= Times(cap, 1 + n - clarified)
  }

  lemma PaidStep(cap: nat, c: nat, clarified: nat, n: nat, again: bool)
    requires c <= cap && Paid(cap, if again then c + 1 else 0, clarified, n)
    ensures Paid(cap, c, clarified + (if again then 1 else 0), n + 1)
  {
    if !again {
      assert Times(cap, 1 + (n + 1) - clarified) == cap + Times(cap, 1 + n - clarified);
    }
  }

  /** The decisions of a conversation whose counter started at `c`: each
      clarification adds one, anything else starts it again, up to `cap`. */
  predicate Counted(cap: nat, c: nat, ds: seq<Decision>)
    decreases |ds|
  {
    ds != [] ==>
      && ds[0].state.clarifications == (if ds[0].action == Clarify then c + 1 else 0)
      && ds[0].state.clarifications <= cap
      && Counted(cap, ds[0].state.clarifications, ds[1..])
  }

  lemma {:induction false} PlayIsCounted(script: Script, threshold: real, state: State, turns: seq<Turn>)
    requires script.Valid() && Good(script, state)
    ensures
      var ds := Play(script, threshold, state, turns);
      ds.Ok? && |ds.value| == |turns| && Counted(script.Cap(), state.clarifications, ds.value)
    decreases |turns|
  {
    if turns != [] {
      TurnKeeps(script, threshold, state, turns[0]);
      var d := Advance(script, threshold, state, turns[0]).value;
      PlayIsCounted(script, threshold, d.state, turns[1..]);
      var rest := Play(script, threshold, d.state, turns[1..]).value;
      assert ([d] + rest)[1..] == rest;
    }
  }

  lemma {:induction false} CountedIsPaid(cap: nat, c: nat, ds: seq<Decision>)
    requires c <= cap && Counted(cap, c, ds)
    ensures Paid(cap, c, Clarifications(ds), |ds|)
    decreases |ds|
  {
    if ds == [] {
      assert Times(cap, 1) == cap;
    } else {
      CountedIsPaid(cap, ds[0].state.clarifications, ds[1..]);
      PaidStep(cap, c, Clarifications(ds[1..]), |ds| - 1, ds[0].action == Clarify);
    }
  }

  /** The clarification loop is broken often enough to pay for it. */
  lemma LoopIsBroken(script: Script, threshold: real, state: State, turns: seq<Turn>)
    requires script.Valid() && Good(script, state)
    ensures
      var ds := Play(script, threshold, state, turns);
      ds.Ok? && Paid(script.Cap(), state.clarifications, Clarifications(ds.value), |turns|)
  {
    PlayIsCounted(script, threshold, state, turns);
    CountedIsPaid(script.Cap(), state.clarifications, Play(script, threshold, state, turns).value);
  }

  lemma PaidBound(cap: nat, clarified: nat, n: nat)
    requires Paid(cap, 0, clarified, n)
    ensures clarified <= n - n / (cap + 1)
  {
    var others := n - clarified;
    var q := n / (cap + 1);
    TimesIs(cap, 1 + others);
    assert q * (cap + 1) <= n;
    assert cap * (1 + others) + others == (cap + 1) * others + cap;
    assert n < (cap + 1) * (others + 1);
    if q > others {
      TimesMonotone(cap + 1, others + 1, q);
      assert false;
    }
  }

  /** A conversation of n turns from the start holds at most
      n - floor(n / (cap + 1)) clarifications. */
  lemma ClarificationsAreBounded(script: Script, threshold: real, turns: seq<Turn>)
    requires script.Valid()
    ensures
      var ds := Play(script, threshold, script.Start(), turns);
      ds.Ok? && Clarifications(ds.value) <= |turns| - |turns| / (script.Cap() + 1)
  {
    LoopIsBroken(script, threshold, script.Start(), turns);
    PaidBound(script.Cap(), Clarifications(Play(script, threshold, script.Start(), turns).value), |turns|);
  }

  /** A conversation begins at the script's entry node, holding nothing: its
      first turn, naming no intent, goes on with that node exactly when it
      takes something back or supplies a slot declared there. */
  lemma BeginsAtTheEntry(script: Script, turn: Turn, slot: string)
    requires script.Valid() && script.entry.Some? && script.entry.value in script.nodes && turn.intent.None?
    ensures Narrows(script, script.Start(), turn) <==> turn.cleared != {}
    ensures Supplies(script, script.Start(), turn) <==>
      Declared(script.nodes[script.entry.value]) * turn.slots.Keys != {}
    ensures Held(script, script.Start(), turn, slot) <==> slot in turn.slots
    ensures script.Start().scriptId == script.id && script.Start().quotedUnit == None
  {
    ResumesExactlyWhenSupplied(script, script.Start(), turn);
    assert turn.slots == map[] ==> turn.slots.Keys == {};
  }

  // ------------------------------------------------------------ slot filling converges

  predicate IsMissing(script: Script, name: string, state: State, s: string)
    requires name in script.nodes
  {
    s in script.nodes[name].requiresSlots && s !in state.slots
  }

  /** The required slots still missing, as a set: the measure. */
  function MissingSet(script: Script, name: string, state: State): set<string>
    requires name in script.nodes
  {
    set s | s in script.nodes[name].requiresSlots && s !in state.slots
  }

  /** The customer answers the question asked: no new topic, nothing taken
      back, and at least one of the missing slots. */
  predicate Fills(script: Script, name: string, state: State, turn: Turn)
    requires name in script.nodes
  {
    && turn.intent.None? && !turn.handoffRequested
    && turn.cleared == {} && Stale(script, state, turn) == {}
    && exists s :: IsMissing(script, name, state, s) && s in turn.slots
  }

  ghost predicate FillingRun(script: Script, threshold: real, name: string, state: State, turns: seq<Turn>)
    requires script.Valid() && name in script.nodes
    decreases |turns|
  {
    turns != [] ==>
      && Fills(script, name, state, turns[0])
      && match Advance(script, threshold, state, turns[0])
         case Err(_) => false
         case Ok(d) => FillingRun(script, threshold, name, d.state, turns[1..])
  }

  /** There is nothing left to stop the node answering this turn. */
  predicate Clear(script: Script, threshold: real, name: string, slots: Slots, turn: Turn)
    requires name in script.nodes
  {
    var node := script.nodes[name];
    && node.action == Answer && turn.grounded && !Uncertain(turn, threshold)
    && (node.requiresAnySlot == [] || AnyHeld(node.requiresAnySlot, slots))
  }

  /** A decision about a filling turn: the same node asks for exactly what is
      left, or nothing is left and it answers when it can. */
  predicate Progresses(script: Script, threshold: real, name: string, turn: Turn, d: Decision)
    requires name in script.nodes
  {
    var left := MissingSet(script, name, d.state);
    && (left != {} ==> d.action == Clarify && d.node == name && (set s | s in d.missing) == left)
    && (left == {} && Clear(script, threshold, name, d.state.slots, turn) ==> d.action == Answer && d.node == name)
  }

  lemma FillRoutes(script: Script, name: string, state: State, turn: Turn)
    requires script.Valid() && name in script.nodes && state.node == Some(name)
    requires Fills(script, name, state, turn)
    ensures Route(script, state, turn) == name
    ensures Merge(script, state, turn) == state.(slots := state.slots + turn.slots)
  {
    var s :| IsMissing(script, name, state, s) && s in turn.slots;
    assert s in Declared(script.nodes[name]) * turn.slots.Keys;
    assert turn.cleared + Stale(script, state, turn) == {};
    assert state.slots - {} == state.slots;
  }

  lemma MissingIsTheSet(script: Script, name: string, state: State)
    requires name in script.nodes
    ensures
      var missing := Missing(script.nodes[name].requiresSlots, state.slots);
      (set s | s in missing) == MissingSet(script, name, state)
      && (missing == [] <==> MissingSet(script, name, state) == {})
  {
    var missing := Missing(script.nodes[name].requiresSlots, state.slots);
    if missing != [] {
      assert missing[0] in MissingSet(script, name, state);
    }
  }

  lemma DecideFilling(script: Script, threshold: real, name: string, merged: State, turn: Turn)
    requires script.Valid() && name in script.nodes && script.nodes[name].action != Handoff
    requires merged.clarifications < script.maxClarifications && !turn.handoffRequested
    ensures
      var d := Decide(script, threshold, merged, name, turn);
      && Progresses(script, threshold, name, turn, d)
      && d.state.slots == merged.slots && d.state.version == merged.version
      && (MissingSet(script, name, merged) != {} ==>
            d.state.node == Some(name) && d.state.clarifications == merged.clarifications + 1)
  {
    MissingIsTheSet(script, name, merged);
    assert MissingSet(script, name, Decide(script, threshold, merged, name, turn).state)
        == MissingSet(script, name, merged);
  }

  lemma FillStep(script: Script, threshold: real, name: string, state: State, turn: Turn)
    requires script.Valid() && name in script.nodes && script.nodes[name].action != Handoff
    requires state.version == script.version && state.node == Some(name)
    requires state.clarifications < script.maxClarifications
    requires Fills(script, name, state, turn)
    ensures
      var r := Advance(script, threshold, state, turn);
      && r.Ok? && Progresses(script, threshold, name, turn, r.value)
      && r.value.state.slots == state.slots + turn.slots && r.value.state.version == state.version
      && |MissingSet(script, name, r.value.state)| < |MissingSet(script, name, state)|
      && (MissingSet(script, name, r.value.state) != {} ==>
            r.value.state.node == Some(name) && r.value.state.clarifications == state.clarifications + 1)
  {
    FillRoutes(script, name, state, turn);
    var merged := state.(slots := state.slots + turn.slots);
    DecideFilling(script, threshold, name, merged, turn);
    var s :| IsMissing(script, name, state, s) && s in turn.slots;
    assert s in MissingSet(script, name, state) && s !in MissingSet(script, name, merged);
    FewerLeft(MissingSet(script, name, merged), MissingSet(script, name, state));
    assert MissingSet(script, name, Decide(script, threshold, merged, name, turn).state)
        == MissingSet(script, name, merged);
  }

  /** One filling turn made progress, lost nothing held, and left fewer slots missing. */
  predicate Filled(script: Script, threshold: real, name: string, state: State, turn: Turn, d: Decision)
    requires name in script.nodes
  {
    && Progresses(script, threshold, name, turn, d)
    && state.slots.Keys <= d.state.slots.Keys
    && |MissingSet(script, name, d.state)| < |MissingSet(script, name, state)|
  }

  /** Turn `i` of a filling run made progress; nothing held at the start was
      lost, and at least i + 1 of the slots missing then are supplied. */
  predicate FilledAt(
    script: Script, threshold: real, name: string, state: State, turns: seq<Turn>, ds: seq<Decision>, i: nat)
    requires name in script.nodes && i < |turns| == |ds|
  {
    && Progresses(script, threshold, name, turns[i], ds[i])
    && state.slots.Keys <= ds[i].state.slots.Keys
    && |MissingSet(script, name, ds[i].state)| <= |MissingSet(script, name, state)| - (i + 1)
    && (i < |turns| - 1 ==> MissingSet(script, name, ds[i].state) != {})
  }

  /** From a clarification with m required slots missing and room for m more
      clarifications, a customer who keeps answering is done within m turns:
      after i of them at most m - i slots are missing, so none after m; until
      then the same node asks for exactly what is left, nothing already held
      is lost, and the turn that supplies the last slot is answered if the
      node answers and there is evidence. */
  lemma {:induction false} SlotFillingConverges(
    script: Script, threshold: real, name: string, state: State, turns: seq<Turn>)
    requires script.Valid() && name in script.nodes && script.nodes[name].action != Handoff
    requires state.version == script.version && state.node == Some(name)
    requires state.clarifications + |MissingSet(script, name, state)| <= script.maxClarifications
    requires FillingRun(script, threshold, name, state, turns)
    ensures |turns| <= |MissingSet(script, name, state)|
    ensures
      var r := Play(script, threshold, state, turns);
      && r.Ok? && |r.value| == |turns|
      && forall i :: 0 <= i < |turns| ==> FilledAt(script, threshold, name, state, turns, r.value, i)
    decreases |turns|
  {
    if turns != [] {
      var s :| IsMissing(script, name, state, s) && s in turns[0].slots;
      assert s in MissingSet(script, name, state);
      FillStep(script, threshold, name, state, turns[0]);
      var d := Advance(script, threshold, state, turns[0]).value;
      if turns[1..] != [] {
        var t :| IsMissing(script, name, d.state, t) && t in turns[1..][0].slots;
        assert t in MissingSet(script, name, d.state);
        SlotFillingConverges(script, threshold, name, d.state, turns[1..]);
      }
      var rest := Play(script, threshold, d.state, turns[1..]).value;
      assert Play(script, threshold, state, turns).value == [d] + rest;
      FillingCons(script, threshold, name, state, turns, d, rest);
    }
  }

  lemma FillingCons(
    script: Script, threshold: real, name: string, state: State, turns: seq<Turn>, d: Decision, rest: seq<Decision>)
    requires script.Valid() && name in script.nodes && turns != [] && |rest| == |turns| - 1
    requires Filled(script, threshold, name, state, turns[0], d)
    requires turns[1..] != [] ==> MissingSet(script, name, d.state) != {}
    requires forall i :: 0 <= i < |rest| ==> FilledAt(script, threshold, name, d.state, turns[1..], rest, i)
    ensures forall i :: 0 <= i < |turns| ==> FilledAt(script, threshold, name, state, turns, [d] + rest, i)
  {
    forall i | 0 <= i < |turns| ensures FilledAt(script, threshold, name, state, turns, [d] + rest, i) {
      if i > 0 {
        assert FilledAt(script, threshold, name, d.state, turns[1..], rest, i - 1);
        assert ([d] + rest)[i] == rest[i - 1] && turns[i] == turns[1..][i - 1];
      }
    }
  }

  lemma FewerLeft(a: set<string>, b: set<string>)
    requires a < b
    ensures |a| < |b|
  {
    var x :| x in b && x !in a;
    assert b == (b - {x}) + {x};
    assert a <= b - {x};
    SubsetSize(a, b - {x});
  }

  lemma {:induction false} SubsetSize(a: set<string>, b: set<string>)
    requires a <= b
    ensures |a| <= |b|
  {
    if a != {} {
      var x :| x in a;
      SubsetSize(a - {x}, b - {x});
    }
  }
}
