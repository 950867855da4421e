/** One turn, start to finish: redact, understand, decide, compose, check. The
    collaborators may answer anything; wordings and word lists are settings. */
module Orchestrator {
  import opened Sequences
  import opened Dialogue
  import opened ScriptEngine
  import opened Numerals
  import opened Guards
  import opened FigureAudit
  import Provenance
  import Router

  // ------------------------------------------------------------ the collaborators

  datatype Retrieval = Retrieval(
    passages: seq<string>, confidence: Option<real>, constants: seq<Constant>,
    embeddingModel: string, embeddingTokens: nat, sources: seq<Provenance.Passage>)

  datatype Extraction =
    | Extracted(turn: Turn, usage: Option<Router.Completion>)
    | OutsideVocabulary
    | ExtractionUnavailable
    | ExtractionError

  datatype Search = Found(retrieval: Retrieval) | SearchUnavailable | SearchError

  datatype Prompt = Prompt(
    message: string, register: Register, channel: string, passages: seq<string>, language: Option<string>,
    referral: Option<string>, slots: Slots)

  /** What each collaborator would answer this turn. Extraction and search run
      at once, and when both fail the one that settles first is heard. */
  datatype Collaborators = Collaborators(
    extract: (string, State) -> Extraction,
    search: string -> Search,
    searchSettlesFirst: bool,
    compose: Prompt -> Router.Reply,
    audit: (string, seq<string>) -> Router.Reply)

  // ------------------------------------------------------------ settings

  datatype ReplyKey =
    | HandoffReply | ClarifyReply | LowConfidence | RefuseReply | GroundingFailed | ProviderUnavailable

  datatype Wording = Wording(
    language: string -> Option<string>,
    plain: (ReplyKey, Register, Option<string>) -> string,
    scripted: (ReplyKey, Decision, Option<string>) -> string,
    referral: Option<string> -> Option<string>)

  datatype Setting = Setting(
    script: Script, threshold: real,
    patterns: seq<Pattern>, placeholder: string -> string,
    reader: Reader, style: Provenance.Style, whitespace: set<char>,
    show: Constant -> string, wording: Wording)
  {
    predicate Covers(text: string) {
      script.Valid() && InBounds(NormalizeDigits(text, reader.digitMap), patterns)
    }
  }

  // ------------------------------------------------------------ results and the ledger

  datatype Provenanced = Provenanced(
    figures: seq<Provenance.FigureSource>, numericGrounding: bool, figureAudit: bool, auditDegraded: bool)

  datatype TurnResult = TurnResult(
    reply: string, action: Action, register: Register, state: State, degraded: bool, redacted: seq<string>,
    passages: seq<string>, authorised: seq<string>, constants: seq<string>, grounding: Option<Grounding>,
    audit: Option<Audit>, provenance: Option<Provenanced>, completions: seq<Router.Completion>,
    providerUnavailable: bool)

  datatype Usage =
    | MessageIn(channel: string)
    | MessageOut(channel: string)
    | LlmCall(channel: string, call: Router.Completion)
    | EmbeddingCall(channel: string, model: string, tokens: nat)

  /** Something other than an outage or an unknown value was raised, and the
      turn has no reply. */
  datatype Uncaught = Uncaught

  datatype Conducted = Raised | Done(result: TurnResult, rows: seq<Usage>)

  // ------------------------------------------------------------ understanding the message

  /** What a turn knows when the engine is asked: the extractor's reading with
      retrieval's confidence, and every search made, the last one being read. */
  datatype Intake =
    | Understood(turn: Turn, usage: Option<Router.Completion>, retrieval: Retrieval, searches: seq<Retrieval>)
    | Unavailable
    | Beyond
    | Failed

  function Topic(script: Script, state: State, turn: Turn): string {
    match Resumes(script, state, turn)
    case None => ""
    case Some(node) => script.nodes[node].describe
  }

  function Grounded(turn: Turn, retrieval: Retrieval): Turn {
    turn.(confidence := retrieval.confidence, grounded := retrieval.passages != [] || retrieval.constants != [])
  }

  /** A turn that resumes a node is searched again with the node's topic. */
  function Requery(
    c: Collaborators, script: Script, state: State, message: string, turn: Turn, usage: Option<Router.Completion>,
    first: Retrieval): Intake
  {
    var topic := Topic(script, state, turn);
    if topic == "" then Understood(Grounded(turn, first), usage, first, [first])
    else
      match c.search(topic + " " + message)
      case Found(second) => Understood(Grounded(turn, second), usage, second, [first, second])
      case _ => Failed
  }

  function TakeIn(c: Collaborators, script: Script, state: State, message: string): Intake {
    var extraction, search := c.extract(message, state), c.search(message);
    if extraction.Extracted? && search.Found? then
      Requery(c, script, state, message, extraction.turn, extraction.usage, search.retrieval)
    else if extraction.Extracted? || (!search.Found? && c.searchSettlesFirst) then
      if search.SearchUnavailable? then Unavailable else Failed
    else
      match extraction
      case ExtractionUnavailable => Unavailable
      case OutsideVocabulary => Beyond
      case _ => Failed
  }

  // ------------------------------------------------------------ scripted replies

  function NonAnswerKey(d: Decision): ReplyKey {
    if d.action == Handoff then HandoffReply
    else if d.action == Refuse then RefuseReply
    else if d.gateClosed then LowConfidence
    else ClarifyReply
  }

  function Shown(s: Setting, constants: seq<Constant>): seq<string> {
    seq(|constants|, i requires 0 <= i < |constants| => s.show(constants[i]))
  }

  function OrElse(first: Option<string>, second: Option<string>): Option<string> {
    if first.Some? && first.value != "" then first else second
  }

  /** A reply nobody composed. A failure is a human's turn, whatever the engine
      had decided. */
  function Scripted(
    s: Setting, d: Decision, r: Redaction, retrieval: Retrieval, key: ReplyKey, language: Option<string>): TurnResult
  {
    var reply := s.wording.scripted(key, d, OrElse(language, s.wording.language(r.text)));
    TurnResult(
      reply, if key in {ProviderUnavailable, GroundingFailed} then Handoff else d.action, d.register, d.state, false,
      r.found, retrieval.passages, [reply], Shown(s, retrieval.constants), None, None, None, [], false)
  }

  /** A reply for a turn that never reached the engine. */
  function Unreached(s: Setting, r: Redaction, state: State, key: ReplyKey): TurnResult {
    var reply := s.wording.plain(key, Masri, s.wording.language(r.text));
    TurnResult(reply, Handoff, Masri, state, key == ProviderUnavailable, r.found, [], [reply], [], None, None, None, [],
               key == ProviderUnavailable)
  }

  predicate Blank(s: Setting, text: string) {
    Trim(text, s.whitespace) == ""
  }

  // ------------------------------------------------------------ the answer

  function PromptFor(
    s: Setting, d: Decision, retrieval: Retrieval, r: Redaction, language: Option<string>, channel: string): Prompt
  {
    Prompt(r.text, d.register, channel, retrieval.passages, language, s.wording.referral(language), d.state.slots)
  }

  function Material(s: Setting, retrieval: Retrieval): seq<string> {
    retrieval.passages + Shown(s, retrieval.constants)
  }

  function Gate(s: Setting, text: string, retrieval: Retrieval): Grounding {
    CheckNumericGrounding(text, retrieval.passages, retrieval.constants, s.reader.extract)
  }

  function AuditOf(s: Setting, c: Collaborators, text: string, retrieval: Retrieval): Audit {
    AuditFigures(text, Material(s, retrieval), s.reader, c.audit)
  }

  function Metered(channel: string, call: Option<Router.Completion>): seq<Usage> {
    if call.None? then [] else [LlmCall(channel, call.value)]
  }

  /** A composed reply that passed both gates, before its figures are traced. */
  function Delivered(
    s: Setting, d: Decision, r: Redaction, retrieval: Retrieval, language: Option<string>,
    composed: Router.Completion, audit: Audit): TurnResult
  {
    var referral := s.wording.referral(language);
    TurnResult(
      composed.text, d.action, d.register, d.state, composed.degraded, r.found, retrieval.passages,
      if referral.None? || referral.value == "" then [] else [referral.value], Shown(s, retrieval.constants),
      Some(Gate(s, composed.text, retrieval)), Some(audit), None, [composed], false)
  }

  /** From the engine's decision to a reply and what it cost. */
  function Resolved(
    s: Setting, c: Collaborators, d: Decision, retrieval: Retrieval, r: Redaction, language: Option<string>,
    channel: string): Conducted
  {
    if d.action != Answer then Done(Scripted(s, d, r, retrieval, NonAnswerKey(d), language), [])
    else
      match c.compose(PromptFor(s, d, retrieval, r, language, channel))
      case AllProvidersUnavailable =>
        var outage := Scripted(s, d, r, retrieval, ProviderUnavailable, None);
        Done(outage.(degraded := true, providerUnavailable := true), [])
      case Answered(composed) => Checked(s, c, d, retrieval, r, language, channel, composed)
      case _ => Raised
  }

  function Checked(
    s: Setting, c: Collaborators, d: Decision, retrieval: Retrieval, r: Redaction, language: Option<string>,
    channel: string, composed: Router.Completion): Conducted
  {
    var row := LlmCall(channel, composed);
    if Blank(s, composed.text) then
      Done(Scripted(s, d, r, retrieval, ProviderUnavailable, None).(degraded := true), [row])
    else
      var gate, audit := Gate(s, composed.text, retrieval), AuditOf(s, c, composed.text, retrieval);
      var rows := [row] + Metered(channel, audit.completion);
      if !gate.passed || !audit.passed then
        Done(Scripted(s, d, r, retrieval, GroundingFailed, None).(
               degraded := composed.degraded || audit.degraded, grounding := Some(gate), audit := Some(audit),
               completions := [composed]), rows)
      else
        Done(Delivered(s, d, r, retrieval, language, composed, audit), rows)
  }

  function Embeddings(channel: string, searches: seq<Retrieval>): seq<Usage> {
    if searches == [] then []
    else
      (if searches[0].embeddingTokens == 0 then []
       else [EmbeddingCall(channel, searches[0].embeddingModel, searches[0].embeddingTokens)])
      + Embeddings(channel, searches[1..])
  }

  function Language(s: Setting, turn: Turn, r: Redaction): Option<string> {
    OrElse(turn.language, s.wording.language(r.text))
  }

  /** The same turn with ledger rows around its own. */
  function Framed(c: Conducted, before: seq<Usage>, after: seq<Usage>): Conducted {
    if c.Raised? then Raised else Done(c.result, before + c.rows + after)
  }

  /** The turn, once it is understood. */
  function Understand(s: Setting, c: Collaborators, r: Redaction, state: State, channel: string, i: Intake): Conducted
    requires s.script.Valid() && i.Understood?
  {
    match Advance(s.script, s.threshold, state, i.turn)
    case Err(_) => Raised
    case Ok(d) =>
      Framed(Resolved(s, c, d, i.retrieval, r, Language(s, i.turn, r), channel),
             Metered(channel, i.usage) + Embeddings(channel, i.searches), [])
  }

  /** The turn, whatever was understood. */
  function Middle(s: Setting, c: Collaborators, r: Redaction, state: State, channel: string, i: Intake): Conducted
    requires s.script.Valid()
  {
    match i
    case Failed => Raised
    case Unavailable => Done(Unreached(s, r, state, ProviderUnavailable), [])
    case Beyond => Done(Unreached(s, r, state, HandoffReply), [])
    case Understood(_, _, _, _) => Understand(s, c, r, state, channel, i)
  }

  /** The whole turn, from the redacted message on. */
  function Conduct(s: Setting, c: Collaborators, r: Redaction, state: State, channel: string): Conducted
    requires s.script.Valid()
  {
    Framed(Middle(s, c, r, state, channel, TakeIn(c, s.script, state, r.text)),
           [MessageIn(channel)], [MessageOut(channel)])
  }

  function RedactionOf(s: Setting, text: string): Redaction
    requires s.Covers(text)
  {
    var normalized := NormalizeDigits(text, s.reader.digitMap);
    CutsAscend(text, normalized, s.patterns);
    var cuts := Cuts(normalized, s.patterns);
    Redaction(Rebuild(text, cuts, 0, Placeholders(s.placeholder)), Labels(cuts))
  }

  /** The result says where its figures came from exactly when it was composed. */
  ghost predicate Evidenced(s: Setting, retrieval: Retrieval, result: TurnResult) {
    && (result.provenance.Some? <==> result.action == Answer)
    && (result.provenance.Some? ==>
          var p := result.provenance.value;
          && Provenance.AreTraces(p.figures, s.reader.extract(result.reply),
                                  Provenance.Evidence(retrieval.sources, retrieval.constants, [], []),
                                  s.reader.extract, s.style)
          && result.grounding.Some? && p.numericGrounding == result.grounding.value.passed
          && result.audit.Some? && p.figureAudit == result.audit.value.passed
          && p.auditDegraded == result.audit.value.degraded)
  }

  /** A turn did what was expected of it, with the evidence for what it says. */
  ghost predicate Meets(
    s: Setting, expected: Conducted, retrieval: Retrieval, result: Result<TurnResult, Uncaught>,
    before: seq<Usage>, after: seq<Usage>)
  {
    match expected
    case Raised => result.Err?
    case Done(turn, rows) =>
      && result.Ok? && result.value.(provenance := None) == turn
      && Evidenced(s, retrieval, result.value)
      && after == before + rows
  }

  lemma MeetsFramed(
    s: Setting, expected: Conducted, retrieval: Retrieval, result: Result<TurnResult, Uncaught>,
    start: seq<Usage>, before: seq<Usage>, inner: seq<Usage>, after: seq<Usage>)
    requires Meets(s, expected, retrieval, result, start + before, inner)
    ensures Meets(s, Framed(expected, before, after), retrieval, result, start, inner + after)
  {
    if expected.Done? {
      assert start + before + expected.rows + after == start + (before + expected.rows + after);
    }
  }

  /** The retrieval a turn read; none was read by a turn that understood nothing. */
  function Read(i: Intake): Retrieval {
    if i.Understood? then i.retrieval else Retrieval([], None, [], "", 0, [])
  }

  class Session {
    var ledger: seq<Usage>

    constructor ()
      ensures ledger == []
    {
      ledger := [];
    }

    method Record(row: Usage)
      modifies this
      ensures ledger == old(ledger) + [row]
    {
      ledger := ledger + [row];
    }
  }

  class Orchestrator {
    const setting: Setting
    const collaborators: Collaborators

    constructor (setting: Setting, collaborators: Collaborators)
      ensures this.setting == setting && this.collaborators == collaborators
    {
      this.setting, this.collaborators := setting, collaborators;
    }

    method Meter(session: Session, channel: string, call: Option<Router.Completion>)
      modifies session
      ensures session.ledger == old(session.ledger) + Metered(channel, call)
    {
      if call.Some? {
        session.Record(LlmCall(channel, call.value));
      }
    }

    method Evidence(reply: string, retrieval: Retrieval, gate: Grounding, audit: Audit) returns (p: Provenanced)
      ensures Provenance.AreTraces(p.figures, setting.reader.extract(reply),
                                   Provenance.Evidence(retrieval.sources, retrieval.constants, [], []),
                                   setting.reader.extract, setting.style)
      ensures p.numericGrounding == gate.passed && p.figureAudit == audit.passed && p.auditDegraded == audit.degraded
    {
      var evidence := Provenance.Evidence(retrieval.sources, retrieval.constants, [], []);
      var figures := Provenance.TraceFigures(reply, evidence, setting.reader.extract, setting.style);
      p := Provenanced(figures, gate.passed, audit.passed, audit.degraded);
    }

    method Resolve(session: Session, d: Decision, retrieval: Retrieval, r: Redaction, language: Option<string>,
                   channel: string) returns (result: Result<TurnResult, Uncaught>)
      modifies session
      ensures Meets(setting, Resolved(setting, collaborators, d, retrieval, r, language, channel), retrieval, result,
                    old(session.ledger), session.ledger)
    {
      if d.action != Answer {
        return Ok(Scripted(setting, d, r, retrieval, NonAnswerKey(d), language));
      }
      var reply := collaborators.compose(PromptFor(setting, d, retrieval, r, language, channel));
      if reply.AllProvidersUnavailable? {
        var outage := Scripted(setting, d, r, retrieval, ProviderUnavailable, None);
        return Ok(outage.(degraded := true, providerUnavailable := true));
      }
      if !reply.Answered? {
        return Err(Uncaught);
      }
      var composed := reply.completion;
      Meter(session, channel, Some(composed));
      if Blank(setting, composed.text) {
        return Ok(Scripted(setting, d, r, retrieval, ProviderUnavailable, None).(degraded := true));
      }
      var gate := Gate(setting, composed.text, retrieval);
      var audit := AuditOf(setting, collaborators, composed.text, retrieval);
      Meter(session, channel, audit.completion);
      if !gate.passed || !audit.passed {
        var discarded := Scripted(setting, d, r, retrieval, GroundingFailed, None);
        return Ok(discarded.(degraded := composed.degraded || audit.degraded, grounding := Some(gate),
                             audit := Some(audit), completions := [composed]));
      }
      var evidence := Evidence(composed.text, retrieval, gate, audit);
      result := Ok(Delivered(setting, d, r, retrieval, language, composed, audit).(provenance := Some(evidence)));
    }

    method MeterSearches(session: Session, channel: string, searches: seq<Retrieval>)
      modifies session
      ensures session.ledger == old(session.ledger) + Embeddings(channel, searches)
    {
      for i := 0 to |searches|
        invariant session.ledger + Embeddings(channel, searches[i..])
               == old(session.ledger) + Embeddings(channel, searches)
      {
        assert searches[i..][1..] == searches[i + 1..];
        if searches[i].embeddingTokens != 0 {
          session.Record(EmbeddingCall(channel, searches[i].embeddingModel, searches[i].embeddingTokens));
        }
      }
    }

    method Proceed(session: Session, state: State, r: Redaction, channel: string, intake: Intake)
      returns (result: Result<TurnResult, Uncaught>)
      requires setting.script.Valid() && intake.Understood?
      modifies session
      ensures Meets(setting, Understand(setting, collaborators, r, state, channel, intake), intake.retrieval, result,
                    old(session.ledger), session.ledger)
    {
      ghost var start := session.ledger;
      Meter(session, channel, intake.usage);
      MeterSearches(session, channel, intake.searches);
      ghost var costs := Metered(channel, intake.usage) + Embeddings(channel, intake.searches);
      assert session.ledger == start + costs;
      var decision := Advance(setting.script, setting.threshold, state, intake.turn);
      if decision.Err? {
        return Err(Uncaught);
      }
      var language := Language(setting, intake.turn, r);
      result := Resolve(session, decision.value, intake.retrieval, r, language, channel);
      MeetsFramed(setting, Resolved(setting, collaborators, decision.value, intake.retrieval, r, language, channel),
                  intake.retrieval, result, start, costs, session.ledger, []);
      assert session.ledger + [] == session.ledger;
    }

    method Carry(session: Session, state: State, r: Redaction, channel: string, intake: Intake)
      returns (result: Result<TurnResult, Uncaught>)
      requires setting.script.Valid()
      modifies session
      ensures Meets(setting, Middle(setting, collaborators, r, state, channel, intake), Read(intake), result,
                    old(session.ledger), session.ledger)
    {
      match intake {
        case Failed => result := Err(Uncaught);
        case Unavailable => result := Ok(Unreached(setting, r, state, ProviderUnavailable));
        case Beyond => result := Ok(Unreached(setting, r, state, HandoffReply));
        case Understood(_, _, _, _) => result := Proceed(session, state, r, channel, intake);
      }
    }

    /** Run one inbound message to a reply. When something is raised the rows
        go with the caller's transaction. */
    method Handle(session: Session, state: State, text: string, channel: string)
      returns (result: Result<TurnResult, Uncaught>)
      requires setting.Covers(text)
      modifies session
      ensures
        var r := RedactionOf(setting, text);
        Meets(setting, Conduct(setting, collaborators, r, state, channel),
              Read(TakeIn(collaborators, setting.script, state, r.text)), result,
              old(session.ledger), session.ledger)
    {
      ghost var start := session.ledger;
      var r := Redact(text, setting.patterns, setting.placeholder, setting.reader.digitMap);
      session.Record(MessageIn(channel));
      var intake := TakeIn(collaborators, setting.script, state, r.text);
      result := Carry(session, state, r, channel, intake);
      MeetsFramed(setting, Middle(setting, collaborators, r, state, channel, intake), Read(intake), result,
                  start, [MessageIn(channel)], session.ledger, [MessageOut(channel)]);
      if result.Ok? {
        session.Record(MessageOut(channel));
      }
    }
  }
}
