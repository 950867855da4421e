/** What a whole turn guarantees, whatever the extractor, the retriever, the
    model and the auditor answer. */
module TurnSafety {
  import opened Sequences
  import opened Dialogue
  import opened ScriptEngine
  import opened Numerals
  import opened Guards
  import opened FigureAudit
  import opened Orchestrator
  import Provenance
  import Router

  function Intaken(s: Setting, c: Collaborators, r: Redaction, state: State): Intake {
    TakeIn(c, s.script, state, r.text)
  }

  // ------------------------------------------------------------ what is understood

  /** Extraction and search run at once. A search that failed is heard when the
      extraction succeeded, or failed later. */
  predicate SearchIsHeard(c: Collaborators, r: Redaction, state: State) {
    !c.search(r.text).Found? && (c.extract(r.text, state).Extracted? || c.searchSettlesFirst)
  }

  predicate ExtractionIsHeard(c: Collaborators, r: Redaction, state: State) {
    !c.extract(r.text, state).Extracted? && (c.search(r.text).Found? || !c.searchSettlesFirst)
  }

  /** What the node is about that a turn without an intent goes on with. */
  function Asking(s: Setting, state: State, turn: Turn): string {
    if Supplies(s.script, state, turn) then s.script.nodes[state.node.value].describe else ""
  }

  /** The search a turn reads: with that topic before the message, if there is one. */
  function SearchRead(s: Setting, c: Collaborators, r: Redaction, state: State, turn: Turn): Search {
    var topic := Asking(s, state, turn);
    if topic == "" then c.search(r.text) else c.search(topic + " " + r.text)
  }

  /** The message is understood: the extraction, the search and the repeated
      search all succeed. */
  predicate Grasped(s: Setting, c: Collaborators, r: Redaction, state: State) {
    var extraction := c.extract(r.text, state);
    extraction.Extracted? && c.search(r.text).Found? && SearchRead(s, c, r, state, extraction.turn).Found?
  }

  /** What the turn then reads. */
  function ReadFor(s: Setting, c: Collaborators, r: Redaction, state: State): Retrieval
    requires Grasped(s, c, r, state)
  {
    SearchRead(s, c, r, state, c.extract(r.text, state).turn).retrieval
  }

  /** What the customer said, with what the search was worth. */
  function HeardTurn(s: Setting, c: Collaborators, r: Redaction, state: State): Turn
    requires Grasped(s, c, r, state)
  {
    var read := ReadFor(s, c, r, state);
    c.extract(r.text, state).turn.(
      confidence := read.confidence, grounded := read.passages != [] || read.constants != [])
  }

  /** The message is not understood, and what is heard is an outage, or a value
      outside the vocabulary. */
  predicate MetOutage(c: Collaborators, r: Redaction, state: State) {
    || (c.search(r.text).SearchUnavailable? && SearchIsHeard(c, r, state))
    || (c.extract(r.text, state).ExtractionUnavailable? && ExtractionIsHeard(c, r, state))
  }

  predicate MetUnknownValue(c: Collaborators, r: Redaction, state: State) {
    c.extract(r.text, state).OutsideVocabulary? && ExtractionIsHeard(c, r, state)
  }

  /** What is made of a message, for everything the collaborators may answer. */
  lemma TakesInExactly(s: Setting, c: Collaborators, r: Redaction, state: State)
    ensures
      var i, extraction, first := Intaken(s, c, r, state), c.extract(r.text, state), c.search(r.text);
      && (i.Unavailable? <==> MetOutage(c, r, state))
      && (i.Beyond? <==> MetUnknownValue(c, r, state))
      && (i.Understood? <==> Grasped(s, c, r, state))
      && (i.Understood? ==>
            && i.turn == HeardTurn(s, c, r, state) && i.usage == extraction.usage
            && i.retrieval == ReadFor(s, c, r, state)
            && i.searches == (if Asking(s, state, extraction.turn) == "" then [first.retrieval]
                              else [first.retrieval, i.retrieval]))
  {
    if c.extract(r.text, state).Extracted? {
      ResumesExactlyWhenSupplied(s.script, state, c.extract(r.text, state).turn);
    }
  }

  // ------------------------------------------------------------ when a turn is answered

  /** The search found something, and nothing it is too unsure of. */
  predicate HasEvidence(retrieval: Retrieval, threshold: real) {
    && (retrieval.passages != [] || retrieval.constants != [])
    && (retrieval.confidence.Some? ==> retrieval.confidence.value >= threshold)
  }

  /** The model is asked: the message is understood, the node it lands on can
      answer it, and the search it reads found evidence. */
  ghost predicate Asked(s: Setting, c: Collaborators, r: Redaction, state: State) {
    && Grasped(s, c, r, state)
    && Allowed(s.script, state, c.extract(r.text, state).turn)
    && HasEvidence(ReadFor(s, c, r, state), s.threshold)
  }

  lemma AllowedWhateverTheEvidence(script: Script, state: State, turn: Turn, confidence: Option<real>, grounded: bool)
    ensures Allowed(script, state, turn.(confidence := confidence, grounded := grounded))
       <==> Allowed(script, state, turn)
  {
    var other := turn.(confidence := confidence, grounded := grounded);
    forall name
      ensures Lands(script, state, other, name) <==> Lands(script, state, turn, name)
      ensures name in script.nodes ==>
        (Equipped(script, state, other, name) <==> Equipped(script, state, turn, name))
    {
      assert forall slot :: Held(script, state, other, slot) <==> Held(script, state, turn, slot);
    }
  }

  lemma AskedDecides(s: Setting, c: Collaborators, r: Redaction, state: State)
    requires s.script.Valid()
    ensures
      Grasped(s, c, r, state) ==>
        var d := Advance(s.script, s.threshold, state, HeardTurn(s, c, r, state));
        Asked(s, c, r, state) <==> d.Ok? && d.value.action == Answer
  {
    TakesInExactly(s, c, r, state);
    var i := Intaken(s, c, r, state);
    if i.Understood? {
      AnswersExactlyWhenAllowed(s.script, s.threshold, state, i.turn);
      AllowedWhateverTheEvidence(s.script, state, c.extract(r.text, state).turn, i.turn.confidence, i.turn.grounded);
      assert Allowed(s.script, state, i.turn) <==> Allowed(s.script, state, c.extract(r.text, state).turn);
    }
  }

  function Decided(s: Setting, c: Collaborators, r: Redaction, state: State): Decision
    requires s.script.Valid() && Asked(s, c, r, state)
  {
    AskedDecides(s, c, r, state);
    Advance(s.script, s.threshold, state, HeardTurn(s, c, r, state)).value
  }

  /** The language of the turn: the one the customer asked for, else that of the message. */
  function Spoken(s: Setting, c: Collaborators, r: Redaction, state: State): Option<string>
    requires Grasped(s, c, r, state)
  {
    var wanted := c.extract(r.text, state).turn.language;
    if wanted.Some? && wanted.value != "" then wanted else s.wording.language(r.text)
  }

  /** What the model said when it was asked to compose, given the redacted
      message, what the search found, and what the engine decided and holds. */
  function Said(s: Setting, c: Collaborators, r: Redaction, state: State, channel: string): Router.Reply
    requires s.script.Valid() && Asked(s, c, r, state)
  {
    var d, read, language := Decided(s, c, r, state), ReadFor(s, c, r, state), Spoken(s, c, r, state);
    c.compose(Prompt(r.text, d.register, channel, read.passages, language, s.wording.referral(language), d.state.slots))
  }

  predicate Silent(s: Setting, text: string) {
    forall ch :: ch in text ==> ch in s.whitespace
  }

  lemma BlankIsSilent(s: Setting, text: string)
    ensures Blank(s, text) <==> Silent(s, text)
  {
    TrimLeavesNothing(text, s.whitespace);
  }

  /** What the auditor makes of a text, over the passages and the constants as shown. */
  function Audited(s: Setting, c: Collaborators, read: Retrieval, text: string): Audit {
    var shown := seq(|read.constants|, i requires 0 <= i < |read.constants| => s.show(read.constants[i]));
    AuditFigures(text, read.passages + shown, s.reader, c.audit)
  }

  /** A turn has earned an answer: the engine allows one, the model said
      something, every figure it said is in the material and unhedged, and the
      audit did not object. */
  ghost predicate Earned(s: Setting, c: Collaborators, r: Redaction, state: State, channel: string)
    requires s.script.Valid()
  {
    && Asked(s, c, r, state)
    && var said, read := Said(s, c, r, state, channel), ReadFor(s, c, r, state);
       && said.Answered? && !Silent(s, said.completion.text)
       && (forall q :: q in s.reader.extract(said.completion.text) ==>
             Supports(q.value, read.passages, read.constants, s.reader.extract) && !q.approximate)
       && Audited(s, c, read, said.completion.text).passed
  }

  lemma AuditedOver(s: Setting, c: Collaborators, read: Retrieval, text: string)
    ensures AuditOf(s, c, text, read) == Audited(s, c, read, text)
  {
    var shown := seq(|read.constants|, i requires 0 <= i < |read.constants| => s.show(read.constants[i]));
    assert Shown(s, read.constants) == shown;
  }

  /** What becomes of decision `d`, given what the turn reads. */
  function Outcome(s: Setting, c: Collaborators, r: Redaction, state: State, channel: string, d: Decision): Conducted
    requires Grasped(s, c, r, state)
  {
    Resolved(s, c, d, ReadFor(s, c, r, state), r, Spoken(s, c, r, state), channel)
  }

  /** Both raise, or both have the same result, whatever they cost. */
  predicate SameEnd(a: Conducted, b: Conducted) {
    (a.Raised? <==> b.Raised?) && (a.Done? && b.Done? ==> a.result == b.result)
  }

  lemma ConductsWhatIsDecided(s: Setting, c: Collaborators, r: Redaction, state: State, channel: string)
    requires s.script.Valid() && Grasped(s, c, r, state)
    ensures
      var d := Advance(s.script, s.threshold, state, HeardTurn(s, c, r, state));
      SameEnd(Conduct(s, c, r, state, channel),
              if d.Err? then Raised else Outcome(s, c, r, state, channel, d.value))
  {
    TakesInExactly(s, c, r, state);
  }

  lemma ConductsWhatIsSaid(s: Setting, c: Collaborators, r: Redaction, state: State, channel: string)
    requires s.script.Valid() && Asked(s, c, r, state)
    ensures
      var d := Decided(s, c, r, state);
      && d.action == Answer
      && SameEnd(Conduct(s, c, r, state, channel), Outcome(s, c, r, state, channel, d))
      && Said(s, c, r, state, channel)
         == c.compose(PromptFor(s, d, ReadFor(s, c, r, state), r, Spoken(s, c, r, state), channel))
  {
    AskedDecides(s, c, r, state);
    ConductsWhatIsDecided(s, c, r, state, channel);
  }

  lemma CheckedAnswers(
    s: Setting, c: Collaborators, d: Decision, retrieval: Retrieval, r: Redaction, language: Option<string>,
    channel: string, composed: Router.Completion)
    requires d.action == Answer
    ensures
      var done := Checked(s, c, d, retrieval, r, language, channel, composed);
      && done.Done?
      && (done.result.action == Answer <==>
            !Silent(s, composed.text) && Gate(s, composed.text, retrieval).passed
            && AuditOf(s, c, composed.text, retrieval).passed)
      && (done.result.action == Answer ==>
            done.result == Delivered(s, d, r, retrieval, language, composed, AuditOf(s, c, composed.text, retrieval)))
  {
    BlankIsSilent(s, composed.text);
  }

  /** Nothing but an earned answer is sent as one, and an earned one is. */
  lemma AnswersExactlyWhenEarned(s: Setting, c: Collaborators, r: Redaction, state: State, channel: string)
    requires s.script.Valid()
    ensures
      var turn := Conduct(s, c, r, state, channel);
      (turn.Done? && turn.result.action == Answer) <==> Earned(s, c, r, state, channel)
  {
    TakesInExactly(s, c, r, state);
    AskedDecides(s, c, r, state);
    if Asked(s, c, r, state) {
      ConductsWhatIsSaid(s, c, r, state, channel);
      var said, read := Said(s, c, r, state, channel), ReadFor(s, c, r, state);
      if said.Answered? {
        CheckedAnswers(s, c, Decided(s, c, r, state), read, r, Spoken(s, c, r, state), channel, said.completion);
        GateIsExact(said.completion.text, read.passages, read.constants, s.reader.extract);
        AuditedOver(s, c, read, said.completion.text);
      }
    } else if Grasped(s, c, r, state) {
      ConductsWhatIsDecided(s, c, r, state, channel);
    }
  }

  /** What an answer is: the composed text, whole, over the material the turn
      read, from a conversation that holds every slot its node requires. The
      referral is the only other text the turn may state. */
  lemma AnswersAreSafe(s: Setting, c: Collaborators, r: Redaction, state: State, channel: string)
    requires s.script.Valid() && Earned(s, c, r, state, channel)
    ensures
      var turn, read := Conduct(s, c, r, state, channel), ReadFor(s, c, r, state);
      var said := Said(s, c, r, state, channel).completion;
      && turn.Done?
      && turn.result.reply == said.text && turn.result.completions == [said]
      && turn.result.degraded == said.degraded && !turn.result.providerUnavailable
      && turn.result.passages == read.passages
      && (forall q :: q in s.reader.extract(turn.result.reply) ==>
            !q.approximate && Supports(q.value, read.passages, read.constants, s.reader.extract))
      && turn.result.grounding.Some? && turn.result.grounding.value.passed
      && turn.result.audit.Some? && turn.result.audit.value.passed
      && (var referral := s.wording.referral(Spoken(s, c, r, state));
          turn.result.authorised == if referral.GetOr("") == "" then [] else [referral.value])
    ensures
      var turn, node := Conduct(s, c, r, state, channel), Decided(s, c, r, state).node;
      && turn.result.state.node == Some(node) && node in s.script.nodes
      && s.script.nodes[node].action == Answer
      && (forall slot :: slot in s.script.nodes[node].requiresSlots ==> slot in turn.result.state.slots)
      && turn.result.state.clarifications == 0
  {
    AnswerPassesBothGates(s, c, r, state, channel);
    DecidedHoldsItsSlots(s, c, r, state);
  }

  lemma DecidedHoldsItsSlots(s: Setting, c: Collaborators, r: Redaction, state: State)
    requires s.script.Valid() && Asked(s, c, r, state)
    ensures
      var d := Decided(s, c, r, state);
      && d.state.node == Some(d.node) && d.node in s.script.nodes && s.script.nodes[d.node].action == Answer
      && (forall slot :: slot in s.script.nodes[d.node].requiresSlots ==> slot in d.state.slots)
      && d.state.clarifications == 0
  {
    AskedDecides(s, c, r, state);
    var turn := HeardTurn(s, c, r, state);
    AnswerHoldsItsSlots(s.script, s.threshold, state, turn, Decided(s, c, r, state));
    DecideKeeps(s.script, s.threshold, Merge(s.script, state, turn), ScriptEngine.Route(s.script, state, turn), turn);
  }

  lemma AnswerPassesBothGates(s: Setting, c: Collaborators, r: Redaction, state: State, channel: string)
    requires s.script.Valid() && Earned(s, c, r, state, channel)
    ensures
      var turn, read := Conduct(s, c, r, state, channel), ReadFor(s, c, r, state);
      var said := Said(s, c, r, state, channel).completion;
      && turn.Done? && turn.result.state == Decided(s, c, r, state).state
      && turn.result.reply == said.text && turn.result.completions == [said]
      && turn.result.degraded == said.degraded && !turn.result.providerUnavailable
      && turn.result.passages == read.passages
      && (forall q :: q in s.reader.extract(said.text) ==>
            !q.approximate && Supports(q.value, read.passages, read.constants, s.reader.extract))
      && turn.result.grounding.Some? && turn.result.grounding.value.passed
      && turn.result.audit.Some? && turn.result.audit.value.passed
      && (var referral := s.wording.referral(Spoken(s, c, r, state));
          turn.result.authorised == if referral.GetOr("") == "" then [] else [referral.value])
  {
    var said, read := Said(s, c, r, state, channel), ReadFor(s, c, r, state);
    ConductsWhatIsSaid(s, c, r, state, channel);
    CheckedAnswers(s, c, Decided(s, c, r, state), read, r, Spoken(s, c, r, state), channel, said.completion);
    GateIsExact(said.completion.text, read.passages, read.constants, s.reader.extract);
    AuditedOver(s, c, read, said.completion.text);
  }

  /** No evidence, no answer. A turn that would be answered but for what the
      search it reads came back with, nothing or nothing sure enough, is a
      clarification at the fallback node in the low-confidence wording, and
      the model is not asked. */
  lemma NoEvidenceNoAnswer(s: Setting, c: Collaborators, r: Redaction, state: State, channel: string)
    returns (d: Decision)
    requires s.script.Valid() && Grasped(s, c, r, state) && Allowed(s.script, state, c.extract(r.text, state).turn)
    requires !HasEvidence(ReadFor(s, c, r, state), s.threshold)
    ensures Advance(s.script, s.threshold, state, HeardTurn(s, c, r, state)) == Ok(d)
    ensures d.gateClosed && d.node == FALLBACK
    ensures
      var turn := Conduct(s, c, r, state, channel);
      && turn.Done? && turn.result.action == Clarify && turn.result.completions == []
      && turn.result.reply == s.wording.scripted(LowConfidence, d, Spoken(s, c, r, state))
      && turn.result.state.node == Some(FALLBACK) && turn.result.state.clarifications == state.clarifications + 1
  {
    d := NoEvidenceClosesTheGate(s, c, r, state);
    ConductsWhatIsDecided(s, c, r, state, channel);
    ClosedGateIsScripted(s, c, r, state, channel, d);
  }

  lemma ClosedGateIsScripted(
    s: Setting, c: Collaborators, r: Redaction, state: State, channel: string, d: Decision)
    requires Grasped(s, c, r, state) && d.gateClosed && d.action == Clarify
    ensures
      var turn := Outcome(s, c, r, state, channel, d);
      && turn.Done? && turn.result.action == Clarify && turn.result.completions == [] && turn.result.state == d.state
      && turn.result.reply == s.wording.scripted(LowConfidence, d, Spoken(s, c, r, state))
  {
  }

  lemma NoEvidenceClosesTheGate(s: Setting, c: Collaborators, r: Redaction, state: State) returns (d: Decision)
    requires s.script.Valid() && Grasped(s, c, r, state) && Allowed(s.script, state, c.extract(r.text, state).turn)
    requires !HasEvidence(ReadFor(s, c, r, state), s.threshold)
    ensures Advance(s.script, s.threshold, state, HeardTurn(s, c, r, state)) == Ok(d)
    ensures d.gateClosed && d.action == Clarify && d.node == FALLBACK
    ensures d.state.node == Some(FALLBACK) && d.state.clarifications == state.clarifications + 1
  {
    var turn, heard := HeardTurn(s, c, r, state), c.extract(r.text, state).turn;
    AllowedWhateverTheEvidence(s.script, state, heard, turn.confidence, turn.grounded);
    assert Allowed(s.script, state, turn);
    d := Advance(s.script, s.threshold, state, turn).value;
    GateClosesExactly(s.script, s.threshold, state, turn, d);
    DecideKeeps(s.script, s.threshold, Merge(s.script, state, turn), ScriptEngine.Route(s.script, state, turn), turn);
  }

  /** What the model said is nothing that could be checked: an outage, or blank. */
  predicate SaidNothing(s: Setting, said: Router.Reply) {
    said.AllProvidersUnavailable? || (said.Answered? && Silent(s, said.completion.text))
  }

  /** The wording for a handoff, a refusal, a closed gate or a clarification. */
  predicate SaysWhatWasDecided(s: Setting, d: Decision, language: Option<string>, reply: string) {
    var key := match d.action
      case Handoff => HandoffReply
      case Refuse => RefuseReply
      case _ => if d.gateClosed then LowConfidence else ClarifyReply;
    reply == s.wording.scripted(key, d, language)
  }

  /** The tenant's wording for a turn without an answer. The message was not
      understood: the outage or the handoff wording. The engine decided
      otherwise: the wording of its decision, in the turn's language. The model
      was asked: the outage wording when it said nothing, else the wording for
      a reply that was discarded, in the language of the message. */
  ghost predicate IsTheWording(
    s: Setting, c: Collaborators, r: Redaction, state: State, channel: string, reply: string)
    requires s.script.Valid()
  {
    var heard := s.wording.language(r.text);
    if MetOutage(c, r, state) then reply == s.wording.plain(ProviderUnavailable, Masri, heard)
    else if MetUnknownValue(c, r, state) then reply == s.wording.plain(HandoffReply, Masri, heard)
    else
      && Grasped(s, c, r, state)
      && match Advance(s.script, s.threshold, state, HeardTurn(s, c, r, state))
         case Err(_) => false
         case Ok(d) =>
           if !Asked(s, c, r, state) then SaysWhatWasDecided(s, d, Spoken(s, c, r, state), reply)
           else if SaidNothing(s, Said(s, c, r, state, channel)) then
             reply == s.wording.scripted(ProviderUnavailable, d, heard)
           else reply == s.wording.scripted(GroundingFailed, d, heard)
  }

  lemma ResolvedSaysTheWording(
    s: Setting, c: Collaborators, d: Decision, retrieval: Retrieval, r: Redaction, language: Option<string>,
    channel: string)
    requires language.GetOr("") != "" || language == s.wording.language(r.text)
    ensures
      var done := Resolved(s, c, d, retrieval, r, language, channel);
      var said := c.compose(PromptFor(s, d, retrieval, r, language, channel));
      var heard := s.wording.language(r.text);
      done.Done? && done.result.action != Answer ==>
        && done.result.authorised == [done.result.reply]
        && done.result.reply ==
           if d.action != Answer then s.wording.scripted(NonAnswerKey(d), d, language)
           else if SaidNothing(s, said) then s.wording.scripted(ProviderUnavailable, d, heard)
           else s.wording.scripted(GroundingFailed, d, heard)
    ensures d.action != Answer ==> SaysWhatWasDecided(s, d, language, s.wording.scripted(NonAnswerKey(d), d, language))
  {
    var said := c.compose(PromptFor(s, d, retrieval, r, language, channel));
    if said.Answered? {
      BlankIsSilent(s, said.completion.text);
    }
  }

  /** Every other turn says the tenant's words for what happened and nothing
      else, and says that it may: no composed text survives in it. */
  lemma OtherTurnsAreScripted(s: Setting, c: Collaborators, r: Redaction, state: State, channel: string)
    requires s.script.Valid()
    ensures
      var turn := Conduct(s, c, r, state, channel);
      turn.Done? && turn.result.action != Answer ==>
        turn.result.authorised == [turn.result.reply] && IsTheWording(s, c, r, state, channel, turn.result.reply)
  {
    TakesInExactly(s, c, r, state);
    if Grasped(s, c, r, state) {
      ConductsWhatIsDecided(s, c, r, state, channel);
      var d := Advance(s.script, s.threshold, state, HeardTurn(s, c, r, state));
      if d.Ok? {
        DecidedTurnsAreScripted(s, c, r, state, channel, d.value);
      }
    }
  }

  lemma DecidedTurnsAreScripted(
    s: Setting, c: Collaborators, r: Redaction, state: State, channel: string, d: Decision)
    requires s.script.Valid() && Grasped(s, c, r, state)
    requires Advance(s.script, s.threshold, state, HeardTurn(s, c, r, state)) == Ok(d)
    ensures
      var turn := Outcome(s, c, r, state, channel, d);
      turn.Done? && turn.result.action != Answer ==>
        turn.result.authorised == [turn.result.reply] && IsTheWording(s, c, r, state, channel, turn.result.reply)
  {
    AskedDecides(s, c, r, state);
    ResolvedSaysTheWording(s, c, d, ReadFor(s, c, r, state), r, Spoken(s, c, r, state), channel);
    if Asked(s, c, r, state) {
      ConductsWhatIsSaid(s, c, r, state, channel);
    }
  }

  lemma ResolvedFailsSafely(
    s: Setting, c: Collaborators, d: Decision, retrieval: Retrieval, r: Redaction, language: Option<string>,
    channel: string)
    ensures
      var done, said := Resolved(s, c, d, retrieval, r, language, channel),
                        c.compose(PromptFor(s, d, retrieval, r, language, channel));
      done.Done? ==>
        && (done.result.providerUnavailable <==> d.action == Answer && said.AllProvidersUnavailable?)
        && (d.action == Answer ==> done.result.action in {Answer, Handoff})
        && (d.action != Answer ==> done.result.action == d.action && done.result.completions == [])
  {
  }

  /** A turn that was to be answered and was not is a human's, whatever went
      wrong; a turn that was not to be answered keeps the engine's action. */
  lemma FailuresHandOff(s: Setting, c: Collaborators, r: Redaction, state: State, channel: string)
    requires s.script.Valid() && Conduct(s, c, r, state, channel).Done?
    ensures
      var result := Conduct(s, c, r, state, channel).result;
      && (Asked(s, c, r, state) && !Earned(s, c, r, state, channel) ==> result.action == Handoff)
      && (!Grasped(s, c, r, state) ==> result.action == Handoff)
      && (Grasped(s, c, r, state) && !Asked(s, c, r, state) ==>
            && result.action == Advance(s.script, s.threshold, state, HeardTurn(s, c, r, state)).value.action
            && result.completions == [])
      && (result.providerUnavailable <==>
            || MetOutage(c, r, state)
            || (Asked(s, c, r, state) && Said(s, c, r, state, channel).AllProvidersUnavailable?))
  {
    TakesInExactly(s, c, r, state);
    if Grasped(s, c, r, state) {
      AskedDecides(s, c, r, state);
      AnswersExactlyWhenEarned(s, c, r, state, channel);
      ConductsWhatIsDecided(s, c, r, state, channel);
      var d := Advance(s.script, s.threshold, state, HeardTurn(s, c, r, state));
      if d.Ok? {
        ResolvedFailsSafely(s, c, d.value, ReadFor(s, c, r, state), r, Spoken(s, c, r, state), channel);
        if Asked(s, c, r, state) {
          ConductsWhatIsSaid(s, c, r, state, channel);
        }
      }
    }
  }

  /** The material of a result: what the turn read, and the constants as shown. */
  predicate ShowsWhatWasRead(s: Setting, read: Retrieval, result: TurnResult) {
    && result.passages == read.passages && |result.constants| == |read.constants|
    && forall k :: 0 <= k < |read.constants| ==> result.constants[k] == s.show(read.constants[k])
  }

  /** Its verdicts: none unless the model said something, and then on that. */
  predicate JudgesWhatWasSaid(
    s: Setting, c: Collaborators, read: Retrieval, said: Option<Router.Completion>, result: TurnResult)
  {
    match said
    case None => result.completions == [] && result.grounding.None? && result.audit.None?
    case Some(composed) =>
      && result.completions == [composed]
      && result.grounding
         == Some(CheckNumericGrounding(composed.text, read.passages, read.constants, s.reader.extract))
      && result.audit == Some(Audited(s, c, read, composed.text))
  }

  /** What the model was asked for and said, if it was more than nothing. */
  ghost function Composed(s: Setting, c: Collaborators, r: Redaction, state: State, channel: string)
    : Option<Router.Completion>
    requires s.script.Valid()
  {
    if Asked(s, c, r, state) && Said(s, c, r, state, channel).Answered?
       && !SaidNothing(s, Said(s, c, r, state, channel))
    then Some(Said(s, c, r, state, channel).completion)
    else None
  }

  /** A result is degraded when an outage or silence kept the turn from an
      answer, when the model that answered was a fallback, or when a discarded
      reply had gone unaudited. */
  ghost predicate IsDegraded(s: Setting, c: Collaborators, r: Redaction, state: State, channel: string)
    requires s.script.Valid() && Grasped(s, c, r, state)
  {
    match Composed(s, c, r, state, channel)
    case None => Asked(s, c, r, state)
    case Some(composed) =>
      || composed.degraded
      || (!Earned(s, c, r, state, channel) && Audited(s, c, ReadFor(s, c, r, state), composed.text).degraded)
  }

  /** Everything else a result says: what was redacted, the material, the
      register, the verdicts, and whether it is degraded. */
  lemma ResultsAreAccountedFor(s: Setting, c: Collaborators, r: Redaction, state: State, channel: string)
    requires s.script.Valid() && Conduct(s, c, r, state, channel).Done?
    ensures
      var result := Conduct(s, c, r, state, channel).result;
      && result.redacted == r.found
      && if Grasped(s, c, r, state) then
           && result.register == Advance(s.script, s.threshold, state, HeardTurn(s, c, r, state)).value.register
           && ShowsWhatWasRead(s, ReadFor(s, c, r, state), result)
           && JudgesWhatWasSaid(s, c, ReadFor(s, c, r, state), Composed(s, c, r, state, channel), result)
           && (result.degraded <==> IsDegraded(s, c, r, state, channel))
         else
           && result.register == Masri && result.passages == [] && result.constants == []
           && JudgesWhatWasSaid(s, c, Retrieval([], None, [], "", 0, []), None, result)
           && (result.degraded <==> MetOutage(c, r, state))
  {
    TakesInExactly(s, c, r, state);
    if Grasped(s, c, r, state) {
      AskedDecides(s, c, r, state);
      ConductsWhatIsDecided(s, c, r, state, channel);
      var d := Advance(s.script, s.threshold, state, HeardTurn(s, c, r, state)).value;
      var read, language := ReadFor(s, c, r, state), Spoken(s, c, r, state);
      if Asked(s, c, r, state) {
        ConductsWhatIsSaid(s, c, r, state, channel);
        AnswersExactlyWhenEarned(s, c, r, state, channel);
      }
      ResolvedIsAccountedFor(s, c, d, read, r, language, channel);
    }
  }

  lemma ResolvedIsAccountedFor(
    s: Setting, c: Collaborators, d: Decision, read: Retrieval, r: Redaction, language: Option<string>,
    channel: string)
    requires Resolved(s, c, d, read, r, language, channel).Done?
    ensures
      var result, said := Resolved(s, c, d, read, r, language, channel).result,
                          c.compose(PromptFor(s, d, read, r, language, channel));
      var composed := if d.action == Answer && !SaidNothing(s, said) then Some(said.completion) else None;
      && result.redacted == r.found && result.register == d.register
      && ShowsWhatWasRead(s, read, result) && JudgesWhatWasSaid(s, c, read, composed, result)
      && (result.degraded <==>
            if composed.None? then d.action == Answer
            else composed.value.degraded
                 || (result.action != Answer && Audited(s, c, read, composed.value.text).degraded))
  {
    var said := c.compose(PromptFor(s, d, read, r, language, channel));
    if said.Answered? {
      AuditedOver(s, c, read, said.completion.text);
      BlankIsSilent(s, said.completion.text);
    }
  }

  /** Composition cannot talk its way in: on a turn the engine does not answer,
      what the model and the auditor would say changes nothing, neither the
      result nor the bill. */
  lemma UnaskedModelsHaveNoSay(
    s: Setting, c: Collaborators, r: Redaction, state: State, channel: string,
    compose: Prompt -> Router.Reply, audit: (string, seq<string>) -> Router.Reply)
    requires s.script.Valid() && !Asked(s, c, r, state)
    ensures Conduct(s, c.(compose := compose, audit := audit), r, state, channel) == Conduct(s, c, r, state, channel)
  {
    var other := c.(compose := compose, audit := audit);
    assert Intaken(s, other, r, state) == Intaken(s, c, r, state);
    TakesInExactly(s, c, r, state);
    AskedDecides(s, c, r, state);
  }

  lemma FailsToTakeIn(s: Setting, c: Collaborators, r: Redaction, state: State)
    ensures
      var extraction, search := c.extract(r.text, state), c.search(r.text);
      Intaken(s, c, r, state).Failed? <==>
        || (search.SearchError? && SearchIsHeard(c, r, state))
        || (extraction.ExtractionError? && ExtractionIsHeard(c, r, state))
        || (extraction.Extracted? && search.Found? && !SearchRead(s, c, r, state, extraction.turn).Found?)
  {
    TakesInExactly(s, c, r, state);
  }

  /** The turns that end in an error instead of a reply. Exactly those in which
      the search that is heard raises something other than an outage, or the
      extraction that is heard something other than an outage or an unknown
      value; a resumed turn's repeated search fails in any way, an outage
      included; the conversation is pinned to another version; or the composer
      fails in any way but an outage. */
  lemma RaisesExactly(s: Setting, c: Collaborators, r: Redaction, state: State, channel: string)
    requires s.script.Valid()
    ensures
      var extraction, search := c.extract(r.text, state), c.search(r.text);
      Conduct(s, c, r, state, channel).Raised? <==>
        || (search.SearchError? && (extraction.Extracted? || c.searchSettlesFirst))
        || (extraction.ExtractionError? && (search.Found? || !c.searchSettlesFirst))
        || (extraction.Extracted? && search.Found?
            && (!SearchRead(s, c, r, state, extraction.turn).Found? || state.version != s.script.version))
        || (Asked(s, c, r, state)
            && !Said(s, c, r, state, channel).Answered?
            && !Said(s, c, r, state, channel).AllProvidersUnavailable?)
  {
    TakesInExactly(s, c, r, state);
    FailsToTakeIn(s, c, r, state);
    AskedDecides(s, c, r, state);
    if Grasped(s, c, r, state) {
      ConductsWhatIsDecided(s, c, r, state, channel);
      if Asked(s, c, r, state) {
        ConductsWhatIsSaid(s, c, r, state, channel);
      }
    }
  }

  // ------------------------------------------------------------ the ledger

  function Calls(rows: seq<Usage>): seq<Router.Completion> {
    if rows == [] then []
    else (if rows[0].LlmCall? then [rows[0].call] else []) + Calls(rows[1..])
  }

  /** A model and the tokens it embedded. */
  type Embedded = (string, nat)

  function EmbeddingCalls(rows: seq<Usage>): seq<Embedded> {
    if rows == [] then []
    else
      (if rows[0].EmbeddingCall? then [(rows[0].model, rows[0].tokens)] else []) + EmbeddingCalls(rows[1..])
  }

  /** What one search embedded, if anything. */
  function SearchCall(search: Retrieval): seq<Embedded> {
    if search.embeddingTokens == 0 then [] else [(search.embeddingModel, search.embeddingTokens)]
  }

  function SearchCalls(searches: seq<Retrieval>): seq<Embedded> {
    if searches == [] then [] else SearchCall(searches[0]) + SearchCalls(searches[1..])
  }

  predicate IsCost(u: Usage, channel: string) {
    (u.LlmCall? || u.EmbeddingCall?) && u.channel == channel
  }

  predicate OnlyCosts(rows: seq<Usage>, channel: string) {
    forall u :: u in rows ==> IsCost(u, channel)
  }

  lemma {:induction false} CallsOnlyAppend(a: seq<Usage>, b: seq<Usage>)
    ensures Calls(a + b) == Calls(a) + Calls(b)
  {
    if a == [] {
      assert a + b == b;
    } else {
      var first := if a[0].LlmCall? then [a[0].call] else [];
      assert (a + b)[0] == a[0] && (a + b)[1..] == a[1..] + b;
      CallsOnlyAppend(a[1..], b);
      assert first + (Calls(a[1..]) + Calls(b)) == (first + Calls(a[1..])) + Calls(b);
    }
  }

  lemma {:induction false} EmbeddingCallsAppend(a: seq<Usage>, b: seq<Usage>)
    ensures EmbeddingCalls(a + b) == EmbeddingCalls(a) + EmbeddingCalls(b)
  {
    if a == [] {
      assert a + b == b;
    } else {
      var first := if a[0].EmbeddingCall? then [(a[0].model, a[0].tokens)] else [];
      assert (a + b)[0] == a[0] && (a + b)[1..] == a[1..] + b;
      EmbeddingCallsAppend(a[1..], b);
      assert first + (EmbeddingCalls(a[1..]) + EmbeddingCalls(b))
          == (first + EmbeddingCalls(a[1..])) + EmbeddingCalls(b);
    }
  }

  lemma CallsAppend(a: seq<Usage>, b: seq<Usage>)
    ensures Calls(a + b) == Calls(a) + Calls(b)
    ensures EmbeddingCalls(a + b) == EmbeddingCalls(a) + EmbeddingCalls(b)
  {
    CallsOnlyAppend(a, b);
    EmbeddingCallsAppend(a, b);
  }

  lemma {:induction false} EmbeddingsAreCosts(channel: string, searches: seq<Retrieval>)
    ensures OnlyCosts(Embeddings(channel, searches), channel) && Calls(Embeddings(channel, searches)) == []
    ensures EmbeddingCalls(Embeddings(channel, searches)) == SearchCalls(searches)
  {
    if searches != [] {
      EmbeddingsAreCosts(channel, searches[1..]);
      var tokens := searches[0].embeddingTokens;
      var first := if tokens == 0 then [] else [EmbeddingCall(channel, searches[0].embeddingModel, tokens)];
      assert first != [] ==> first[1..] == [];
      CallsAppend(first, Embeddings(channel, searches[1..]));
    }
  }

  function Called(call: Option<Router.Completion>): seq<Router.Completion> {
    if call.None? then [] else [call.value]
  }

  lemma MeteredCalls(channel: string, call: Option<Router.Completion>)
    ensures OnlyCosts(Metered(channel, call), channel) && Calls(Metered(channel, call)) == Called(call)
    ensures EmbeddingCalls(Metered(channel, call)) == []
  {
    if call.Some? {
      assert [LlmCall(channel, call.value)][1..] == [];
    }
  }

  /** The composition and the audit a turn paid for. */
  ghost function ComposedCalls(s: Setting, c: Collaborators, r: Redaction, state: State, channel: string)
    : seq<Router.Completion>
    requires s.script.Valid()
  {
    if !Asked(s, c, r, state) then []
    else
      match Said(s, c, r, state, channel)
      case Answered(composed) =>
        [composed] + if Silent(s, composed.text) then []
                     else Called(Audited(s, c, ReadFor(s, c, r, state), composed.text).completion)
      case _ => []
  }

  lemma ResolvedCalls(s: Setting, c: Collaborators, r: Redaction, state: State, channel: string, d: Decision)
    requires s.script.Valid() && Grasped(s, c, r, state)
    requires Advance(s.script, s.threshold, state, HeardTurn(s, c, r, state)) == Ok(d)
    ensures
      var turn := Outcome(s, c, r, state, channel, d);
      turn.Done? ==>
        && OnlyCosts(turn.rows, channel) && Calls(turn.rows) == ComposedCalls(s, c, r, state, channel)
        && EmbeddingCalls(turn.rows) == []
  {
    AskedDecides(s, c, r, state);
    if d.action == Answer {
      ConductsWhatIsSaid(s, c, r, state, channel);
      var said := Said(s, c, r, state, channel);
      if said.Answered? {
        CheckedCalls(s, c, d, ReadFor(s, c, r, state), r, Spoken(s, c, r, state), channel, said.completion);
      }
    }
  }

  lemma CheckedCalls(
    s: Setting, c: Collaborators, d: Decision, read: Retrieval, r: Redaction, language: Option<string>,
    channel: string, composed: Router.Completion)
    ensures
      var turn := Checked(s, c, d, read, r, language, channel, composed);
      && turn.Done? && OnlyCosts(turn.rows, channel) && EmbeddingCalls(turn.rows) == []
      && Calls(turn.rows)
         == [composed] + if Silent(s, composed.text) then [] else Called(Audited(s, c, read, composed.text).completion)
  {
    BlankIsSilent(s, composed.text);
    AuditedOver(s, c, read, composed.text);
    var audit := Audited(s, c, read, composed.text);
    MeteredCalls(channel, audit.completion);
    MeteredCalls(channel, Some(composed));
    CallsAppend([LlmCall(channel, composed)], Metered(channel, audit.completion));
  }

  /** What the searches of a turn embedded: the message, and the message again
      behind the topic of the node it resumes. */
  function Searched(s: Setting, c: Collaborators, r: Redaction, state: State): seq<Embedded>
    requires Grasped(s, c, r, state)
  {
    SearchCall(c.search(r.text).retrieval)
    + if Asking(s, state, c.extract(r.text, state).turn) == "" then [] else SearchCall(ReadFor(s, c, r, state))
  }

  /** What an understood turn with a reply spent. */
  lemma UnderstoodSpends(s: Setting, c: Collaborators, r: Redaction, state: State, channel: string)
    requires s.script.Valid() && Grasped(s, c, r, state)
    ensures
      var turn := Understand(s, c, r, state, channel, Intaken(s, c, r, state));
      turn.Done? ==>
        && OnlyCosts(turn.rows, channel)
        && Calls(turn.rows) == Called(c.extract(r.text, state).usage) + ComposedCalls(s, c, r, state, channel)
        && EmbeddingCalls(turn.rows) == Searched(s, c, r, state)
  {
    var d := Advance(s.script, s.threshold, state, HeardTurn(s, c, r, state));
    TakesInExactly(s, c, r, state);
    if d.Ok? {
      ResolvedCalls(s, c, r, state, channel, d.value);
      TakesInSearches(s, c, r, state);
      var own, i := Outcome(s, c, r, state, channel, d.value), Intaken(s, c, r, state);
      assert Understand(s, c, r, state, channel, i)
          == Framed(own, Metered(channel, i.usage) + Embeddings(channel, i.searches), []);
      if own.Done? {
        BillAddsUp(channel, i.usage, i.searches, own.rows);
      }
    }
  }

  lemma BillAddsUp(channel: string, usage: Option<Router.Completion>, searches: seq<Retrieval>, rows: seq<Usage>)
    requires OnlyCosts(rows, channel)
    ensures
      var all := Metered(channel, usage) + Embeddings(channel, searches) + rows + [];
      && OnlyCosts(all, channel) && Calls(all) == Called(usage) + Calls(rows)
      && EmbeddingCalls(all) == SearchCalls(searches) + EmbeddingCalls(rows)
  {
    var metered, embeddings := Metered(channel, usage), Embeddings(channel, searches);
    MeteredCalls(channel, usage);
    EmbeddingsAreCosts(channel, searches);
    CallsAppend(metered, embeddings);
    CallsAppend(metered + embeddings, rows);
    var all := metered + embeddings + rows;
    assert Metered(channel, usage) + Embeddings(channel, searches) + rows + [] == all;
    assert Called(usage) + [] == Called(usage);
    assert [] + SearchCalls(searches) == SearchCalls(searches);
    assert OnlyCosts(all, channel);
  }

  lemma TakesInSearches(s: Setting, c: Collaborators, r: Redaction, state: State)
    requires Grasped(s, c, r, state)
    ensures Intaken(s, c, r, state).Understood?
    ensures SearchCalls(Intaken(s, c, r, state).searches) == Searched(s, c, r, state)
  {
    TakesInExactly(s, c, r, state);
    var i := Intaken(s, c, r, state);
    assert i.searches[1..] == [] || i.searches[1..] == [i.retrieval];
    assert SearchCalls([i.retrieval]) == SearchCall(i.retrieval) + [];
  }

  /** The bill balances. A turn with a reply records the message in, then what
      it spent, then the message out; the model calls are the extraction, the
      composition and the audit, each once if it answered, and the embedding
      calls those of the searches made; every row names the turn's channel. */
  lemma LedgerBalances(s: Setting, c: Collaborators, r: Redaction, state: State, channel: string)
    requires s.script.Valid() && Conduct(s, c, r, state, channel).Done?
    ensures
      exists spent ::
        && Conduct(s, c, r, state, channel).rows == [MessageIn(channel)] + spent + [MessageOut(channel)]
        && OnlyCosts(spent, channel)
        && if Grasped(s, c, r, state) then
             && Calls(spent) == Called(c.extract(r.text, state).usage) + ComposedCalls(s, c, r, state, channel)
             && EmbeddingCalls(spent) == Searched(s, c, r, state)
           else spent == []
  {
    var i := Intaken(s, c, r, state);
    var spent := Middle(s, c, r, state, channel, i).rows;
    TakesInExactly(s, c, r, state);
    if i.Understood? {
      UnderstoodSpends(s, c, r, state, channel);
    }
    assert Conduct(s, c, r, state, channel).rows == [MessageIn(channel)] + spent + [MessageOut(channel)];
  }

  // ------------------------------------------------------------ the conversation

  lemma ResolvedKeepsState(
    s: Setting, c: Collaborators, d: Decision, retrieval: Retrieval, r: Redaction, language: Option<string>,
    channel: string)
    ensures
      var turn := Resolved(s, c, d, retrieval, r, language, channel);
      turn.Done? ==> turn.result.state == d.state && (turn.result.action == Clarify ==> d.action == Clarify)
  {
  }

  /** A turn without a reply from the engine leaves the conversation where it
      was; every other turn keeps what the engine keeps. */
  lemma ConversationIsKept(s: Setting, c: Collaborators, r: Redaction, state: State, channel: string)
    requires s.script.Valid() && Good(s.script, state) && Conduct(s, c, r, state, channel).Done?
    ensures
      var result := Conduct(s, c, r, state, channel).result;
      && Good(s.script, result.state)
      && result.state.scriptId == state.scriptId && result.state.quotedUnit == state.quotedUnit
      && (Grasped(s, c, r, state) ==>
            result.state == Advance(s.script, s.threshold, state, HeardTurn(s, c, r, state)).value.state)
      && (!Grasped(s, c, r, state) ==> result.state == state && result.action == Handoff)
      && (result.action == Clarify ==> result.state.clarifications == state.clarifications + 1)
  {
    TakesInExactly(s, c, r, state);
    if Grasped(s, c, r, state) {
      var turn := HeardTurn(s, c, r, state);
      ConductsWhatIsDecided(s, c, r, state, channel);
      TurnKeeps(s.script, s.threshold, state, turn);
      var d := Advance(s.script, s.threshold, state, turn);
      ResolvedKeepsState(s, c, d.value, ReadFor(s, c, r, state), r, Spoken(s, c, r, state), channel);
    }
  }

  /** A message as it reaches a conversation, with what the collaborators would
      say to it. */
  datatype Message = Message(from: Collaborators, redaction: Redaction, channel: string)

  function TurnAt(s: Setting, state: State, m: Message): Conducted
    requires s.script.Valid()
  {
    Conduct(s, m.from, m.redaction, state, m.channel)
  }

  /** The conversation's state after `n` messages. A raised turn saves nothing. */
  function StateAfter(s: Setting, state: State, messages: seq<Message>, n: nat): State
    requires s.script.Valid() && n <= |messages|
  {
    if n == 0 then state
    else
      var before := StateAfter(s, state, messages, n - 1);
      var turn := TurnAt(s, before, messages[n - 1]);
      if turn.Raised? then before else turn.result.state
  }

  lemma {:induction false} SessionKeeps(s: Setting, state: State, messages: seq<Message>, n: nat)
    requires s.script.Valid() && n <= |messages| && Good(s.script, state)
    ensures
      var now := StateAfter(s, state, messages, n);
      Good(s.script, now) && now.scriptId == state.scriptId && now.quotedUnit == state.quotedUnit
  {
    if n > 0 {
      SessionKeeps(s, state, messages, n - 1);
      var before, m := StateAfter(s, state, messages, n - 1), messages[n - 1];
      if TurnAt(s, before, m).Done? {
        ConversationIsKept(s, m.from, m.redaction, before, m.channel);
      }
    }
  }

  /** What is safe about one turn of a conversation. */
  ghost predicate SafeTurn(s: Setting, state: State, m: Message)
    requires s.script.Valid()
  {
    var turn := TurnAt(s, state, m);
    turn.Done? ==>
      && (turn.result.action == Answer <==> Earned(s, m.from, m.redaction, state, m.channel))
      && (turn.result.action != Answer ==>
            turn.result.authorised == [turn.result.reply]
            && IsTheWording(s, m.from, m.redaction, state, m.channel, turn.result.reply))
  }

  /** The next message finds the state this turn's result kept, or the same
      state when the turn raised. */
  predicate GoesOn(s: Setting, state: State, m: Message, next: State)
    requires s.script.Valid()
  {
    match TurnAt(s, state, m)
    case Raised => next == state
    case Done(result, _) => next == result.state
  }

  /** Over a whole conversation, whatever its collaborators say at each
      message, every reply is an earned answer or the tenant's own words, and
      the conversation stays one the engine accepts. */
  lemma SessionIsSafe(s: Setting, state: State, messages: seq<Message>)
    requires s.script.Valid() && Good(s.script, state)
    ensures StateAfter(s, state, messages, 0) == state
    ensures forall n: nat :: n < |messages| ==>
      && Good(s.script, StateAfter(s, state, messages, n))
      && SafeTurn(s, StateAfter(s, state, messages, n), messages[n])
      && GoesOn(s, StateAfter(s, state, messages, n), messages[n], StateAfter(s, state, messages, n + 1))
  {
    forall n: nat | n < |messages|
      ensures Good(s.script, StateAfter(s, state, messages, n))
      ensures SafeTurn(s, StateAfter(s, state, messages, n), messages[n])
      ensures GoesOn(s, StateAfter(s, state, messages, n), messages[n], StateAfter(s, state, messages, n + 1))
    {
      var now, m := StateAfter(s, state, messages, n), messages[n];
      SessionKeeps(s, state, messages, n);
      AnswersExactlyWhenEarned(s, m.from, m.redaction, now, m.channel);
      OtherTurnsAreScripted(s, m.from, m.redaction, now, m.channel);
    }
  }

  /** Evidence that agrees with a passed gate leaves no figure without a source. */
  lemma EvidenceCovers(s: Setting, retrieval: Retrieval, result: TurnResult)
    requires Evidenced(s, retrieval, result) && result.action == Answer
    requires Gate(s, result.reply, retrieval).passed
    requires Provenance.Contents(retrieval.sources) == retrieval.passages
    ensures result.provenance.Some?
    ensures forall k :: 0 <= k < |result.provenance.value.figures| ==>
      result.provenance.value.figures[k].grounded
  {
    var e := Provenance.Evidence(retrieval.sources, retrieval.constants, [], []);
    Provenance.PassedReplyTracesCompletely(
      result.reply, result.provenance.value.figures, e, s.reader.extract, s.style);
  }

  /** The evidence kept with an answer is complete: when the sources are the
      passages, every figure of a delivered reply is traced to one. */
  lemma EvidenceIsComplete(
    s: Setting, c: Collaborators, r: Redaction, state: State, channel: string,
    result: Result<TurnResult, Uncaught>, before: seq<Usage>, after: seq<Usage>)
    requires s.script.Valid()
    requires Meets(s, Conduct(s, c, r, state, channel), Read(Intaken(s, c, r, state)), result, before, after)
    requires result.Ok? && result.value.action == Answer
    requires
      var retrieval := Read(Intaken(s, c, r, state));
      Provenance.Contents(retrieval.sources) == retrieval.passages
    ensures result.value.provenance.Some?
    ensures forall k :: 0 <= k < |result.value.provenance.value.figures| ==>
      result.value.provenance.value.figures[k].grounded
  {
    AnswersExactlyWhenEarned(s, c, r, state, channel);
    AnswersAreSafe(s, c, r, state, channel);
    TakesInExactly(s, c, r, state);
    var retrieval := Intaken(s, c, r, state).retrieval;
    GateIsExact(result.value.reply, retrieval.passages, retrieval.constants, s.reader.extract);
    EvidenceCovers(s, retrieval, result.value);
  }
}
