/** Claim-level figure audit: a model proposes, for each figure, the words of
    the material that state it, and this module checks the words are there. */
module FigureAudit {
  import opened Sequences
  import opened Numerals
  import opened Guards
  import Router

  datatype Claim = Claim(figure: string, claim: string, span: Option<string>)

  datatype Audit = Audit(
    passed: bool, unsupported: seq<Claim>, checked: nat, degraded: bool, completion: Option<Router.Completion>)

  /** How figures and audits are read. `parse` is the reader of the auditor's
      document: nothing but a well-formed audit gives claims. */
  datatype Reader = Reader(
    extract: Extractor, digitMap: map<char, char>, trim: set<char>, parse: string -> Option<seq<Claim>>)

  const SEPARATOR := "\n\n"

  function Join(pieces: seq<string>): string {
    if pieces == [] then ""
    else if |pieces| == 1 then pieces[0]
    else pieces[0] + SEPARATOR + Join(pieces[1..])
  }

  /** What quotations are looked for in. */
  function Haystack(material: seq<string>, reader: Reader): string {
    NormalizeDigits(Join(material), reader.digitMap)
  }

  predicate At(text: string, part: string, i: nat) {
    i + |part| <= |text| && text[i..i + |part|] == part
  }

  predicate Contains(text: string, part: string) {
    exists i :: 0 <= i <= |text| && At(text, part, i)
  }

  function SpanOf(claim: Claim, reader: Reader): string {
    NormalizeDigits(claim.span.GetOr(""), reader.digitMap)
  }

  function FigureOf(claim: Claim, reader: Reader): string {
    Trim(NormalizeDigits(claim.figure, reader.digitMap), reader.trim)
  }

  /** A claim that quotes something, and names a figure that is in the quotation. */
  predicate StatesItsFigure(claim: Claim, reader: Reader) {
    && claim.span.Some? && claim.span.value != ""
    && FigureOf(claim, reader) != "" && Contains(SpanOf(claim, reader), FigureOf(claim, reader))
  }

  predicate Supported(claim: Claim, haystack: string, reader: Reader) {
    StatesItsFigure(claim, reader) && Contains(haystack, SpanOf(claim, reader))
  }

  function Unsupported(claims: seq<Claim>, haystack: string, reader: Reader): seq<Claim> {
    if claims == [] then []
    else
      (if Supported(claims[0], haystack, reader) then [] else [claims[0]])
      + Unsupported(claims[1..], haystack, reader)
  }

  /** The verdict on a reply, from whatever the auditor answers. */
  function AuditFigures(
    reply: string, material: seq<string>, reader: Reader, call: (string, seq<string>) -> Router.Reply): Audit
  {
    if reader.extract(reply) == [] then Audit(true, [], 0, false, None)
    else
      match call(reply, material)
      case Answered(completion) => (
        match reader.parse(completion.text)
        case None => Audit(true, [], 0, true, Some(completion))
        case Some(claims) =>
          var unsupported := Unsupported(claims, Haystack(material, reader), reader);
          Audit(unsupported == [], unsupported, |claims|, false, Some(completion)))
      case _ => Audit(true, [], 0, true, None)
  }

  lemma {:induction false} UnsupportedAreTheRest(claims: seq<Claim>, haystack: string, reader: Reader)
    ensures forall c :: c in Unsupported(claims, haystack, reader) <==> c in claims && !Supported(c, haystack, reader)
    ensures |Unsupported(claims, haystack, reader)| <= |claims|
  {
    if claims != [] {
      UnsupportedAreTheRest(claims[1..], haystack, reader);
      assert forall c :: c in claims <==> c == claims[0] || c in claims[1..];
    }
  }

  // ------------------------------------------------------------ what a verdict is worth

  /** A claim the material bears out: one passage or constant holds the words,
      and the words hold the figure. */
  ghost predicate BorneOut(claim: Claim, material: seq<string>, reader: Reader) {
    && StatesItsFigure(claim, reader)
    && exists k :: 0 <= k < |material|
         && Contains(NormalizeDigits(material[k], reader.digitMap), SpanOf(claim, reader))
  }

  /** No line break at either end, and no empty line inside. */
  predicate Unbroken(part: string)
    requires part != ""
  {
    part[0] != '\n' && part[|part| - 1] != '\n' && !Contains(part, SEPARATOR)
  }

  /** An unbroken text cannot reach into the separator between two pieces. */
  lemma OffTheSeparator(head: string, rest: string, part: string, i: nat)
    requires part != "" && Unbroken(part) && At(head + SEPARATOR + rest, part, i)
    ensures i + |part| <= |head| || i >= |head| + 2
  {
    var all := head + SEPARATOR + rest;
    assert all[|head|] == '\n' && all[|head| + 1] == '\n';
    assert forall k :: 0 <= k < |part| ==> part[k] == all[i..i + |part|][k] == all[i + k];
    if i <= |head| && |head| + 2 <= i + |part| {
      assert part[|head| - i..|head| - i + 2] == SEPARATOR;
      assert At(part, SEPARATOR, |head| - i);
    }
  }

  lemma {:induction false} InOnePiece(pieces: seq<string>, part: string, i: nat) returns (k: nat, j: nat)
    requires part != "" && Unbroken(part) && At(Join(pieces), part, i)
    ensures k < |pieces| && At(pieces[k], part, j)
  {
    if |pieces| <= 1 {
      k, j := 0, i;
    } else {
      var head, rest := pieces[0], Join(pieces[1..]);
      var all := Join(pieces);
      OffTheSeparator(head, rest, part, i);
      if i + |part| <= |head| {
        assert all[i..i + |part|] == head[i..i + |part|];
        k, j := 0, i;
      } else {
        assert all[i..i + |part|] == rest[i - |head| - 2..i - |head| - 2 + |part|];
        k, j := InOnePiece(pieces[1..], part, i - |head| - 2);
        k := k + 1;
      }
    }
  }

  function NormalizeAll(pieces: seq<string>, digitMap: map<char, char>): seq<string> {
    seq(|pieces|, i requires 0 <= i < |pieces| => NormalizeDigits(pieces[i], digitMap))
  }

  lemma {:induction false} NormalizeJoin(pieces: seq<string>, digitMap: map<char, char>)
    requires '\n' !in digitMap
    ensures NormalizeDigits(Join(pieces), digitMap) == Join(NormalizeAll(pieces, digitMap))
  {
    if |pieces| > 1 {
      NormalizeJoin(pieces[1..], digitMap);
      assert NormalizeAll(pieces, digitMap)[1..] == NormalizeAll(pieces[1..], digitMap);
    }
  }

  lemma UnbrokenStaysInOnePiece(claim: Claim, material: seq<string>, reader: Reader)
    requires '\n' !in reader.digitMap
    requires Supported(claim, Haystack(material, reader), reader) && Unbroken(SpanOf(claim, reader))
    ensures BorneOut(claim, material, reader)
  {
    var span := SpanOf(claim, reader);
    var pieces := NormalizeAll(material, reader.digitMap);
    NormalizeJoin(material, reader.digitMap);
    var i: nat :| At(Join(pieces), span, i);
    var k, j := InOnePiece(pieces, span, i);
    assert At(NormalizeDigits(material[k], reader.digitMap), span, j);
  }

  /** `left` and `right`, joined as two pieces, hold them with `breaks` between. */
  lemma PutTogether(left: string, breaks: string, right: string)
    requires breaks == SEPARATOR || (breaks == "\n" && (left == "" || right == ""))
    ensures Contains(left + SEPARATOR + right, left + breaks + right)
  {
    var at := if breaks != SEPARATOR && left == "" then 1 else 0;
    assert (left + SEPARATOR + right)[at..at + |left + breaks + right|] == left + breaks + right;
    assert At(left + SEPARATOR + right, left + breaks + right, at);
  }

  /** Where a broken text breaks. */
  lemma BreakOf(part: string) returns (from: nat, to: nat)
    requires part != "" && !Unbroken(part)
    ensures from < to <= |part| && Contains(part[..from] + SEPARATOR + part[to..], part)
  {
    if part[0] == '\n' {
      from, to := 0, 1;
    } else if part[|part| - 1] == '\n' {
      from, to := |part| - 1, |part|;
    } else {
      from :| 0 <= from <= |part| && At(part, SEPARATOR, from);
      to := from + 2;
    }
    PutTogether(part[..from], part[from..to], part[to..]);
    assert part == part[..from] + part[from..to] + part[to..];
  }

  lemma NormalizeTwo(left: string, right: string, digitMap: map<char, char>)
    requires '\n' !in digitMap
    ensures NormalizeDigits(Join([left, right]), digitMap)
         == NormalizeDigits(left, digitMap) + SEPARATOR + NormalizeDigits(right, digitMap)
  {
    assert Join([left, right]) == left + SEPARATOR + right;
  }

  lemma NormalizeEnds(raw: string, from: nat, to: nat, digitMap: map<char, char>)
    requires from <= to <= |raw|
    ensures NormalizeDigits(raw[..from], digitMap) == NormalizeDigits(raw, digitMap)[..from]
    ensures NormalizeDigits(raw[to..], digitMap) == NormalizeDigits(raw, digitMap)[to..]
  {
  }

  lemma RawIsPutTogether(raw: string, digitMap: map<char, char>) returns (left: string, right: string)
    requires '\n' !in digitMap && raw != "" && !Unbroken(NormalizeDigits(raw, digitMap))
    ensures |left| < |raw| && |right| < |raw|
    ensures Contains(NormalizeDigits(Join([left, right]), digitMap), NormalizeDigits(raw, digitMap))
  {
    var all := NormalizeDigits(raw, digitMap);
    var from, to := BreakOf(all);
    left, right := raw[..from], raw[to..];
    NormalizeEnds(raw, from, to, digitMap);
    NormalizeTwo(left, right, digitMap);
  }

  lemma BrokenIsPutTogether(claim: Claim, reader: Reader) returns (material: seq<string>)
    requires '\n' !in reader.digitMap
    requires StatesItsFigure(claim, reader) && !Unbroken(SpanOf(claim, reader))
    ensures Supported(claim, Haystack(material, reader), reader) && !BorneOut(claim, material, reader)
  {
    var left, right := RawIsPutTogether(claim.span.value, reader.digitMap);
    material := [left, right];
    assert forall k :: 0 <= k < |material| ==> |material[k]| < |SpanOf(claim, reader)|;
  }

  /** Where an accepted quotation comes from. Whatever the material, a claim
      that is accepted is borne out by a single passage or constant, exactly
      when its quotation has no line break at an end and no empty line inside:
      the separator put between two passages is part of what is searched. A
      claim that quotes nothing, or not its figure, is never accepted. */
  lemma QuotationsStayInOnePieceExactly(claim: Claim, reader: Reader)
    requires '\n' !in reader.digitMap
    ensures
      (forall material: seq<string> ::
         Supported(claim, Haystack(material, reader), reader) ==> BorneOut(claim, material, reader))
      <==> !StatesItsFigure(claim, reader) || Unbroken(SpanOf(claim, reader))
  {
    if !StatesItsFigure(claim, reader) {
    } else if Unbroken(SpanOf(claim, reader)) {
      forall material: seq<string> | Supported(claim, Haystack(material, reader), reader)
        ensures BorneOut(claim, material, reader)
      {
        UnbrokenStaysInOnePiece(claim, material, reader);
      }
    } else {
      var material := BrokenIsPutTogether(claim, reader);
      assert Supported(claim, Haystack(material, reader), reader) && !BorneOut(claim, material, reader);
    }
  }

  /** One such quotation: a figure from one passage and its label from the next. */
  lemma QuotationAcrossTwoPieces(reader: Reader)
    requires '1' !in reader.digitMap.Keys + reader.trim
    requires '\n' !in reader.digitMap && 'f' !in reader.digitMap && 'e' !in reader.digitMap
    ensures
      var claim := Claim("1", "fee", Some("1\n\nfee"));
      Supported(claim, Haystack(["1", "fee"], reader), reader) && !BorneOut(claim, ["1", "fee"], reader)
  {
    var span := "1\n\nfee";
    assert NormalizeDigits(span, reader.digitMap) == span && NormalizeDigits("1", reader.digitMap) == "1";
    assert Join(["1", "fee"]) == span;
    assert At(span, span, 0) && At(span, "1", 0);
    assert |NormalizeDigits("fee", reader.digitMap)| == 3;
  }

  // ------------------------------------------------------------ a figure, or part of a longer one

  /** What numbers are written with. */
  predicate InNumber(c: char, separators: set<char>) {
    IsDigit(c) || c in separators
  }

  /** The text has `figure` at `i` as a number of its own: nothing that numbers
      are written with is beside it. */
  predicate StandsAt(text: string, figure: string, separators: set<char>, i: nat) {
    && At(text, figure, i)
    && (i == 0 || !InNumber(text[i - 1], separators))
    && (i + |figure| == |text| || !InNumber(text[i + |figure|], separators))
  }

  ghost predicate Stands(text: string, figure: string, separators: set<char>) {
    exists i: nat :: StandsAt(text, figure, separators, i)
  }

  /** It stands there with something on either side. */
  ghost predicate StandsInside(text: string, figure: string, separators: set<char>) {
    exists i: nat :: 0 < i && i + |figure| < |text| && StandsAt(text, figure, separators, i)
  }

  lemma InsideStaysInside(text: string, part: string, figure: string, separators: set<char>)
    requires Contains(text, part) && StandsInside(part, figure, separators)
    ensures Stands(text, figure, separators)
  {
    var j :| 0 <= j <= |text| && At(text, part, j);
    var i: nat :| 0 < i && i + |figure| < |part| && StandsAt(part, figure, separators, i);
    SliceOfSlice(text, j, |part|, i, |figure|);
    assert part[i - 1] == text[j + i - 1] && part[i + |figure|] == text[j + i + |figure|];
    assert StandsAt(text, figure, separators, j + i);
  }

  function OtherDigit(c: char): (d: char)
    ensures IsDigit(d) && d != c
  {
    if c == '1' then '2' else '1'
  }

  /** Digits put on either side of a text, none that `figure` begins or ends with. */
  function Hemmed(text: string, figure: string): string
    requires figure != ""
  {
    [OtherDigit(figure[0])] + text + [OtherDigit(figure[|figure| - 1])]
  }

  lemma HemmedHidesTheEnds(text: string, figure: string, separators: set<char>, i: nat)
    requires figure != "" && StandsAt(Hemmed(text, figure), figure, separators, i)
    ensures StandsInside(text, figure, separators)
  {
    var all, n := Hemmed(text, figure), |figure|;
    assert all[i..i + n] == figure && all[i..i + n][0] == all[i] && all[i..i + n][n - 1] == all[i + n - 1];
    assert i != 0 && i + n != |all|;
    assert i - 1 != 0 && i + n != |all| - 1;
    assert all[i..i + n] == text[i - 1..i - 1 + n];
    assert StandsAt(text, figure, separators, i - 1);
  }

  lemma HemmedQuotation(claim: Claim, reader: Reader) returns (material: seq<string>)
    requires (forall c :: IsDigit(c) ==> c !in reader.digitMap) && StatesItsFigure(claim, reader)
    ensures Haystack(material, reader) == Hemmed(SpanOf(claim, reader), FigureOf(claim, reader))
    ensures Supported(claim, Haystack(material, reader), reader)
  {
    var span, figure := SpanOf(claim, reader), FigureOf(claim, reader);
    material := [Hemmed(claim.span.value, figure)];
    var all := Hemmed(span, figure);
    assert all[1..1 + |span|] == span;
    assert At(all, span, 1);
  }

  /** Whether an accepted figure is in the material as a number. Whatever the
      material, a claim that is accepted finds its figure there as a number of
      its own, exactly when its quotation has it as one with something on
      either side: elsewhere, digits beside it can make it part of a longer
      number, as the search is for characters. */
  lemma FigureIsANumberExactlyInside(claim: Claim, reader: Reader, separators: set<char>)
    requires forall c :: IsDigit(c) ==> c !in reader.digitMap
    ensures
      (forall material: seq<string> ::
         Supported(claim, Haystack(material, reader), reader) ==>
           Stands(Haystack(material, reader), FigureOf(claim, reader), separators))
      <==> !StatesItsFigure(claim, reader) || StandsInside(SpanOf(claim, reader), FigureOf(claim, reader), separators)
  {
    var span, figure := SpanOf(claim, reader), FigureOf(claim, reader);
    if StatesItsFigure(claim, reader) {
      if StandsInside(span, figure, separators) {
        forall material: seq<string> | Supported(claim, Haystack(material, reader), reader)
          ensures Stands(Haystack(material, reader), figure, separators)
        {
          InsideStaysInside(Haystack(material, reader), span, figure, separators);
        }
      } else {
        var material := HemmedQuotation(claim, reader);
        forall i: nat ensures !StandsAt(Haystack(material, reader), figure, separators, i) {
          if StandsAt(Haystack(material, reader), figure, separators, i) {
            HemmedHidesTheEnds(span, figure, separators, i);
          }
        }
        assert !Stands(Haystack(material, reader), figure, separators);
      }
    }
  }

  /** One such claim: 100, quoted as 100 or as 1000, from a passage that states
      1000 and nothing else. */
  lemma PartOfALongerFigureIsAccepted(reader: Reader, separators: set<char>)
    requires '0' !in reader.digitMap.Keys + reader.trim && '1' !in reader.digitMap.Keys + reader.trim
    ensures forall span :: span in {"100", "1000"} ==>
      Supported(Claim("100", "fee", Some(span)), Haystack(["1000"], reader), reader)
    ensures !Stands(Haystack(["1000"], reader), "100", separators)
  {
    assert NormalizeDigits("1000", reader.digitMap) == "1000" && NormalizeDigits("100", reader.digitMap) == "100";
    assert TrimLeft("100", reader.trim) == "100";
    assert At("1000", "1000", 0) && At("1000", "100", 0) && At("100", "100", 0);
    forall i: nat ensures !StandsAt("1000", "100", separators, i) {
      assert "1000"[1..4] == "000";
    }
  }

  // ------------------------------------------------------------ what an audit vouches for

  /** What the auditor claimed, when it answered a well-formed audit. */
  function Claims(
    reply: string, material: seq<string>, reader: Reader, call: (string, seq<string>) -> Router.Reply)
    : Option<seq<Claim>>
  {
    match call(reply, material)
    case Answered(completion) => reader.parse(completion.text)
    case _ => None
  }

  predicate AllSupported(claims: seq<Claim>, haystack: string, reader: Reader) {
    forall c :: c in claims ==> Supported(c, haystack, reader)
  }

  /** The audit is exact about what the auditor claimed. A reply with figures
      is failed exactly when the auditor answered a well-formed audit and one
      of its claims is not supported; otherwise it passes, and `degraded` is
      set exactly when figures went unaudited. The claims that are not supported
      are reported, the others counted, and the call is kept if there was one. */
  lemma AuditIsExact(
    reply: string, material: seq<string>, reader: Reader, call: (string, seq<string>) -> Router.Reply)
    ensures
      var a := AuditFigures(reply, material, reader, call);
      var haystack := Haystack(material, reader);
      var claims := Claims(reply, material, reader, call);
      var stated := reader.extract(reply) != [];
      && (!a.passed <==> stated && claims.Some? && !AllSupported(claims.value, haystack, reader))
      && (a.degraded <==> stated && claims.None?)
      && (forall c :: c in a.unsupported <==>
            stated && claims.Some? && c in claims.value && !Supported(c, haystack, reader))
      && a.checked == (if stated && claims.Some? then |claims.value| else 0)
      && |a.unsupported| <= a.checked
      && (match call(reply, material)
          case Answered(completion) => a.completion == if stated then Some(completion) else None
          case _ => a.completion == None)
  {
    var claims := Claims(reply, material, reader, call);
    if claims.Some? {
      var haystack := Haystack(material, reader);
      UnsupportedAreTheRest(claims.value, haystack, reader);
      var failing := Unsupported(claims.value, haystack, reader);
      if failing != [] {
        assert failing[0] in failing;
      }
    }
  }

  /** `claims` has one about figure `q`, under whatever reading `names` of what
      a claim is about. */
  predicate Lists(claims: seq<Claim>, q: Quantity, names: (Claim, Quantity) -> bool) {
    exists c :: c in claims && names(c, q)
  }

  predicate Covers(claims: seq<Claim>, figures: seq<Quantity>, names: (Claim, Quantity) -> bool) {
    forall q :: q in figures ==> Lists(claims, q, names)
  }

  /** A claim about `q` was made, and the material supports it. */
  predicate Vouched(
    claims: Option<seq<Claim>>, q: Quantity, haystack: string, reader: Reader, names: (Claim, Quantity) -> bool)
  {
    claims.Some? && exists c :: c in claims.value && names(c, q) && Supported(c, haystack, reader)
  }

  /** What a passing audit is worth, figure by figure. Undegraded, it vouches
      for a figure exactly when the auditor listed one claim about it. So "no
      reply passes with a figure unvouched for" holds exactly when the auditor
      answered a well-formed audit, and one that covers every figure unless it
      holds an unsupported claim. */
  lemma VouchesExactlyForListedFigures(
    reply: string, material: seq<string>, reader: Reader, call: (string, seq<string>) -> Router.Reply,
    names: (Claim, Quantity) -> bool)
    requires reader.extract(reply) != []
    ensures
      var a, claims := AuditFigures(reply, material, reader, call), Claims(reply, material, reader, call);
      a.passed && !a.degraded ==>
        && claims.Some? && a.checked == |claims.value|
        && forall q: Quantity ::
             Vouched(claims, q, Haystack(material, reader), reader, names) <==> Lists(claims.value, q, names)
    ensures
      var a, claims := AuditFigures(reply, material, reader, call), Claims(reply, material, reader, call);
      var figures := reader.extract(reply);
      (a.passed ==> forall q :: q in figures ==> Vouched(claims, q, Haystack(material, reader), reader, names))
      <==> claims.Some?
           && (AllSupported(claims.value, Haystack(material, reader), reader) ==> Covers(claims.value, figures, names))
  {
    AuditIsExact(reply, material, reader, call);
    var claims, figures := Claims(reply, material, reader, call), reader.extract(reply);
    assert figures[0] in figures;
    if claims.Some? && AllSupported(claims.value, Haystack(material, reader), reader) {
      forall q: Quantity
        ensures Vouched(claims, q, Haystack(material, reader), reader, names) <==> Lists(claims.value, q, names)
      {
      }
    }
  }

  /** One such audit: a reply states two figures, the auditor lists the first,
      and the reply passes, undegraded, with nobody vouching for the second. */
  lemma OmittedFigureGoesUnvouched(reader: Reader, answer: Router.Completion, q: Quantity)
    requires '1' !in reader.digitMap.Keys + reader.trim
    requires q in reader.extract("1 2") && q.raw == "2"
    requires reader.parse(answer.text) == Some([Claim("1", "fee", Some("1"))])
    ensures
      var a := AuditFigures("1 2", ["1"], reader, (_, _) => Router.Answered(answer));
      var names := (c: Claim, f: Quantity) => c.figure == f.raw;
      && a.passed && !a.degraded && a.checked == 1
      && !Vouched(Some([Claim("1", "fee", Some("1"))]), q, Haystack(["1"], reader), reader, names)
  {
    var claim := Claim("1", "fee", Some("1"));
    assert NormalizeDigits("1", reader.digitMap) == "1";
    assert At("1", "1", 0);
    assert Supported(claim, Haystack(["1"], reader), reader);
    assert [claim][1..] == [];
    assert Unsupported([claim], Haystack(["1"], reader), reader) == [];
    assert AuditFigures("1 2", ["1"], reader, (_, _) => Router.Answered(answer)).passed;
  }
}
