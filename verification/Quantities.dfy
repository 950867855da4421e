/** Deciding which tokens of a text are quantities. Splitting a text into lines
    and lines into words, and folding a word's spelling, are given. */
module Quantities {
  import opened Sequences
  import opened Numerals

  datatype Reader = Reader(lex: Lexicon, fold: string -> string)

  // ------------------------------------------------------------ tokens

  /** Leading decoration of a line, never content. */
  predicate IsPrefix(token: string, lex: Lexicon) {
    token != "" && forall c :: c in token ==> c in lex.linePrefixes
  }

  /** A short number and a marker: it numbers an item. */
  predicate IsListMarker(token: string, lex: Lexicon) {
    && 2 <= |token| <= lex.listMarkerMaxDigits + 1
    && AllDigits(token[..|token| - 1])
    && token[|token| - 1] in lex.listMarkers
  }

  function FirstContent(line: seq<string>, lex: Lexicon, from: nat): (k: nat)
    requires from <= |line|
    ensures from <= k <= |line|
    decreases |line| - from
  {
    if from < |line| && IsPrefix(line[from], lex) then FirstContent(line, lex, from + 1) else from
  }

  method SkipPrefixes(line: seq<string>, lex: Lexicon) returns (first: nat)
    ensures first == FirstContent(line, lex, 0)
  {
    first := 0;
    while first < |line| && IsPrefix(line[first], lex)
      invariant first <= |line| && FirstContent(line, lex, first) == FirstContent(line, lex, 0)
    {
      first := first + 1;
    }
  }

  /** All tokens, and the positions of those that number an item: a list
      marker is one only where a line's content begins. */
  method Tokenize(lines: seq<seq<string>>, lex: Lexicon) returns (tokens: seq<string>, markers: set<nat>)
    ensures tokens == Flatten(lines)
    ensures markers == Markers(lines, lex)
  {
    tokens, markers := [], {};
    for i := 0 to |lines|
      invariant tokens == Flatten(lines[..i]) && markers == Markers(lines[..i], lex)
    {
      var line := lines[i];
      var first := SkipPrefixes(line, lex);
      LineAdded(lines, i, lex);
      if first < |line| && IsListMarker(line[first], lex) {
        markers := markers + {|tokens| + first};
      }
      tokens := tokens + line;
    }
    assert lines[..|lines|] == lines;
  }

  lemma LineAdded(lines: seq<seq<string>>, i: nat, lex: Lexicon)
    requires i < |lines|
    ensures Flatten(lines[..i + 1]) == Flatten(lines[..i]) + lines[i]
    ensures
      var before, line, first := lines[..i], lines[i], FirstContent(lines[i], lex, 0);
      Markers(lines[..i + 1], lex)
      == if first < |line| && IsListMarker(line[first], lex) then Markers(before, lex) + {|Flatten(before)| + first}
         else Markers(before, lex)
  {
    assert lines[..i + 1] == lines[..i] + [lines[i]];
    MarkersAppend(lines[..i], lines[i], lex);
    FlattenAppend(lines[..i], lines[i]);
  }

  lemma MarkersAppend(before: seq<seq<string>>, line: seq<string>, lex: Lexicon)
    ensures
      var first := FirstContent(line, lex, 0);
      Markers(before + [line], lex)
      == if first < |line| && IsListMarker(line[first], lex) then Markers(before, lex) + {|Flatten(before)| + first}
         else Markers(before, lex)
  {
    assert (before + [line])[..|before|] == before;
  }

  function Markers(lines: seq<seq<string>>, lex: Lexicon): set<nat> {
    if lines == [] then {}
    else
      var before, line := lines[..|lines| - 1], lines[|lines| - 1];
      var first := FirstContent(line, lex, 0);
      Markers(before, lex)
      + if first < |line| && IsListMarker(line[first], lex) then {|Flatten(before)| + first} else {}
  }

  /** A token without its decoration, a sentence-final separator included. */
  function Shave(token: string, lex: Lexicon): string {
    TrimRight(Trim(token, lex.trim), lex.Separators())
  }

  function Folded(tokens: seq<string>, reader: Reader): seq<string> {
    seq(|tokens|, i requires 0 <= i < |tokens| => reader.fold(Shave(tokens[i], reader.lex)))
  }

  function BodyLength(s: string, lex: Lexicon): (n: nat)
    ensures n <= |s|
    ensures forall c :: c in s[..n] ==> IsDigit(c) || c in lex.Separators()
    ensures n < |s| ==> !IsDigit(s[n]) && s[n] !in lex.Separators()
  {
    if s == "" then 0
    else
      var n := BodyLength(s[..|s| - 1], lex);
      if n == |s| - 1 && (IsDigit(s[n]) || s[n] in lex.Separators()) then |s| else n
  }

  datatype Match = Match(body: string, suffix: string)

  /** The number pattern, against a whole token: a digit, then digits and
      separators, then no further digit. */
  function MatchNumber(s: string, lex: Lexicon): (m: Option<Match>)
    ensures m.Some? ==> IsBody(m.value.body, lex) && m.value.body + m.value.suffix == s
  {
    if s == "" || !IsDigit(s[0]) then None
    else
      var n := BodyLength(s, lex);
      if n == 0 || exists c :: c in s[n..] && IsDigit(c) then None
      else
        assert s[..n][0] == s[0];
        Some(Match(s[..n], s[n..]))
  }

  predicate NoDigits(s: string) {
    forall c :: c in s ==> !IsDigit(c)
  }

  /** A way to match the number pattern: a body, then no further digit. */
  predicate Splits(s: string, k: nat, lex: Lexicon) {
    k <= |s| && IsBody(s[..k], lex) && NoDigits(s[k..])
  }

  /** The number pattern is matched exactly when there is a way to match it,
      and then in the way that takes the longest body. */
  lemma MatchIsTheLongest(s: string, lex: Lexicon)
    ensures
      var m := MatchNumber(s, lex);
      && (m.Some? <==> exists k: nat :: Splits(s, k, lex))
      && (m.Some? ==>
            && m.value.body + m.value.suffix == s && Splits(s, |m.value.body|, lex)
            && forall k: nat :: Splits(s, k, lex) ==> k <= |m.value.body|)
  {
    var n := BodyLength(s, lex);
    forall k: nat | Splits(s, k, lex)
      ensures 0 < k <= n && NoDigits(s[n..]) && IsDigit(s[0])
    {
      assert s[..k][0] == s[0];
      assert n < |s| ==> s[n] !in s[..k];
      assert forall j :: 0 <= j < k ==> s[j] in s[..k];
      assert s[k..][n - k..] == s[n..];
    }
    if s != "" && IsDigit(s[0]) && n > 0 && NoDigits(s[n..]) {
      assert s[..n][0] == s[0];
      assert Splits(s, n, lex);
    }
  }

  // ------------------------------------------------------------ context

  predicate IsLatinLetter(c: char) {
    'a' <= c <= 'z' || 'A' <= c <= 'Z'
  }

  /** Digits welded to Latin letters that are not a unit are transliterated
      consonants. */
  predicate IsFrancoConsonant(suffix: string, lex: Lexicon) {
    suffix != "" && suffix !in lex.units && suffix !in lex.percents && exists c :: c in suffix && IsLatinLetter(c)
  }

  datatype UnitSpan = UnitSpan(fraction: real, multiplier: nat)

  /** `[conjunction] [fraction] unit` after token `i`. */
  function UnitsAfter(i: nat, folded: seq<string>, lex: Lexicon): UnitSpan {
    var a := if i + 1 < |folded| && folded[i + 1] in lex.conjunctions then i + 2 else i + 1;
    var b := if a < |folded| && folded[a] in lex.fractions then a + 1 else a;
    var fraction := if b == a then 0.0 else lex.fractions[folded[a]];
    if b < |folded| && folded[b] in lex.units then UnitSpan(fraction, lex.units[folded[b]]) else UnitSpan(0.0, 0)
  }

  function Following(i: nat, folded: seq<string>): string {
    if i + 1 < |folded| then folded[i + 1] else ""
  }

  function Previous(i: nat, folded: seq<string>): string
    requires i < |folded|
  {
    if i > 0 then folded[i - 1] else ""
  }

  predicate PhraseFollows(i: nat, folded: seq<string>, phrases: set<seq<string>>)
    requires i < |folded|
  {
    exists p :: p in phrases && i + 1 + |p| <= |folded| && folded[i + 1..i + 1 + |p|] == p
  }

  function Classify(i: nat, folded: seq<string>, suffix: string, lex: Lexicon): Kind
    requires i < |folded|
  {
    if suffix != "" && suffix in lex.percents then Percent
    else if PhraseFollows(i, folded, lex.currencies) then Currency
    else if Following(i, folded) in lex.percents then Percent
    else if Following(i, folded) in lex.counts then Count
    else Bare
  }

  function DigitCount(s: string): nat {
    if s == "" then 0 else DigitCount(s[..|s| - 1]) + if IsDigit(s[|s| - 1]) then 1 else 0
  }

  predicate IsYear(i: nat, folded: seq<string>, body: string, suffix: string, value: real, lex: Lexicon)
    requires i < |folded|
  {
    && Classify(i, folded, suffix, lex) == Bare && UnitsAfter(i, folded, lex).multiplier == 0
    && (|| (i > 0 && folded[i - 1] in lex.yearMarkers)
        || (&& DigitCount(body) == lex.yearDigits && value == value.Floor as real
            && lex.yearMin as real <= value <= lex.yearMax as real))
  }

  predicate IsRejected(i: nat, folded: seq<string>, body: string, suffix: string, value: real, lex: Lexicon)
    requires i < |folded|
  {
    || Previous(i, folded) in lex.floors + lex.places + lex.forms
    || Following(i, folded) in lex.durations
    || IsYear(i, folded, body, suffix, value, lex)
  }

  predicate IsApproximated(i: nat, folded: seq<string>, lex: Lexicon)
    requires i < |folded|
  {
    exists m :: m in lex.approximations && |m| <= i && folded[i - |m|..i] == m
  }

  /** What a figure is worth before the unit words that follow it. */
  function Scaled(value: real, span: UnitSpan): real {
    if span.multiplier == 0 then value else (value + span.fraction) * span.multiplier as real
  }

  function ApplyUnits(value: real, i: nat, folded: seq<string>, suffix: string, lex: Lexicon): real {
    if suffix in lex.units then value * lex.units[suffix] as real
    else Scaled(value, UnitsAfter(i, folded, lex))
  }

  /** The quantity token `i` states, if it states one. */
  function ReadToken(i: nat, tokens: seq<string>, folded: seq<string>, reader: Reader): Option<Quantity>
    requires i < |tokens| == |folded|
  {
    var lex := reader.lex;
    match MatchNumber(Shave(tokens[i], lex), lex)
    case None => None
    case Some(Match(body, raw)) =>
      var suffix := reader.fold(raw);
      if IsFrancoConsonant(suffix, lex) then None
      else match ParseNumber(body, lex)
        case None => None
        case Some(value) =>
          if IsRejected(i, folded, body, suffix, value, lex) then None
          else
            Some(Quantity(ApplyUnits(value, i, folded, suffix, lex), Classify(i, folded, suffix, lex), tokens[i],
                          IsApproximated(i, folded, lex)))
  }

  /** What token `i` adds to the quantities: a list marker adds nothing. */
  function ReadAt(
    i: nat, tokens: seq<string>, folded: seq<string>, markers: set<nat>, reader: Reader): seq<Quantity>
    requires i < |tokens| == |folded|
  {
    if i in markers then []
    else match ReadToken(i, tokens, folded, reader)
      case Some(q) => [q]
      case None => []
  }

  /** Token by token, what a text states. */
  function Reading(tokens: seq<string>, folded: seq<string>, markers: set<nat>, reader: Reader): nat -> seq<Quantity>
    requires |tokens| == |folded|
  {
    (k: nat) => if k < |tokens| then ReadAt(k, tokens, folded, markers, reader) else []
  }

  function ReadingOf(lines: seq<seq<string>>, reader: Reader): nat -> seq<Quantity> {
    var tokens := Flatten(lines);
    Reading(tokens, Folded(tokens, reader), Markers(lines, reader.lex), reader)
  }

  /** What tokens `from..to` state, in order. */
  function Collect(at: nat -> seq<Quantity>, from: nat, to: nat): seq<Quantity>
    requires from <= to
  {
    if from == to then [] else Collect(at, from, to - 1) + at(to - 1)
  }

  function Extract(lines: seq<seq<string>>, reader: Reader): seq<Quantity> {
    Collect(ReadingOf(lines, reader), 0, |Flatten(lines)|)
  }

  method ReadOne(i: nat, tokens: seq<string>, folded: seq<string>, markers: set<nat>, reader: Reader)
    returns (found: seq<Quantity>)
    requires i < |tokens| == |folded|
    ensures found == ReadAt(i, tokens, folded, markers, reader)
  {
    if i in markers {
      return [];
    }
    match ReadToken(i, tokens, folded, reader) {
      case Some(q) => return [q];
      case None => return [];
    }
  }

  method ExtractQuantities(lines: seq<seq<string>>, reader: Reader) returns (quantities: seq<Quantity>)
    ensures quantities == Extract(lines, reader)
  {
    var tokens, markers := Tokenize(lines, reader.lex);
    var folded := Folded(tokens, reader);
    quantities := [];
    for i := 0 to |tokens|
      invariant quantities == Collect(Reading(tokens, folded, markers, reader), 0, i)
    {
      var found := ReadOne(i, tokens, folded, markers, reader);
      quantities := quantities + found;
    }
  }

  // ------------------------------------------------------------ what a token states, among its neighbours

  /** `line[p]` numbers an item: a few digits and a marker, after nothing but
      decoration, and no decoration itself. */
  ghost predicate NumbersItem(line: seq<string>, p: nat, lex: Lexicon) {
    && p < |line|
    && (forall q :: 0 <= q < p ==> line[q] != "" && forall c :: c in line[q] ==> c in lex.linePrefixes)
    && (exists c :: c in line[p] && c !in lex.linePrefixes)
    && exists digits: string, mark: char ::
         line[p] == digits + [mark] && 1 <= |digits| <= lex.listMarkerMaxDigits && AllDigits(digits)
         && mark in lex.listMarkers
  }

  lemma {:induction false} ContentBegins(line: seq<string>, lex: Lexicon, from: nat)
    requires from <= |line| && forall q :: 0 <= q < from ==> IsPrefix(line[q], lex)
    ensures
      var first := FirstContent(line, lex, from);
      && (forall q :: 0 <= q < first ==> IsPrefix(line[q], lex))
      && (first < |line| ==> !IsPrefix(line[first], lex))
    decreases |line| - from
  {
    if from < |line| && IsPrefix(line[from], lex) {
      ContentBegins(line, lex, from + 1);
    }
  }

  lemma ListMarkerIs(token: string, lex: Lexicon)
    ensures IsListMarker(token, lex) <==> exists digits: string, mark: char ::
      token == digits + [mark] && 1 <= |digits| <= lex.listMarkerMaxDigits && AllDigits(digits)
      && mark in lex.listMarkers
  {
    if IsListMarker(token, lex) {
      assert token == token[..|token| - 1] + [token[|token| - 1]];
    }
    if digits: string, mark: char :|
      token == digits + [mark] && 1 <= |digits| <= lex.listMarkerMaxDigits && AllDigits(digits)
      && mark in lex.listMarkers
    {
      assert token[..|token| - 1] == digits;
    }
  }

  lemma NumbersItemWhereContentBegins(line: seq<string>, p: nat, lex: Lexicon)
    ensures NumbersItem(line, p, lex)
       <==> p == FirstContent(line, lex, 0) && p < |line| && IsListMarker(line[p], lex) && !IsPrefix(line[p], lex)
  {
    ContentBegins(line, lex, 0);
    var first := FirstContent(line, lex, 0);
    if p < |line| {
      ListMarkerIs(line[p], lex);
    }
    assert forall q :: 0 <= q < |line| ==>
      (IsPrefix(line[q], lex) <==> line[q] != "" && forall c :: c in line[q] ==> c in lex.linePrefixes);
  }

  /** Token `at` of the text numbers an item of line `r`. */
  ghost predicate NumbersItemOf(lines: seq<seq<string>>, at: nat, r: nat, lex: Lexicon)
    requires r < |lines|
  {
    exists p: nat :: at == |Flatten(lines[..r])| + p && NumbersItem(lines[r], p, lex)
  }

  lemma LineNumbersItem(before: seq<seq<string>>, line: seq<string>, lex: Lexicon, at: nat)
    ensures
      var first := FirstContent(line, lex, 0);
      (exists p: nat :: at == |Flatten(before)| + p && NumbersItem(line, p, lex))
      <==> first < |line| && IsListMarker(line[first], lex) && at == |Flatten(before)| + first
  {
    var first := FirstContent(line, lex, 0);
    ContentBegins(line, lex, 0);
    forall p: nat
      ensures NumbersItem(line, p, lex)
         <==> p == first && p < |line| && IsListMarker(line[p], lex) && !IsPrefix(line[p], lex)
    {
      NumbersItemWhereContentBegins(line, p, lex);
    }
    if first < |line| && IsListMarker(line[first], lex) {
      assert NumbersItem(line, first, lex);
    }
  }

  /** The list markers of a text are exactly the tokens that number an item of
      their own line. */
  lemma {:induction false} MarkersAreExact(lines: seq<seq<string>>, lex: Lexicon, at: nat)
    ensures at in Markers(lines, lex) <==> exists r: nat :: r < |lines| && NumbersItemOf(lines, at, r, lex)
  {
    if lines != [] {
      var before, last := lines[..|lines| - 1], |lines| - 1;
      MarkersAreExact(before, lex, at);
      LineNumbersItem(before, lines[last], lex, at);
      assert NumbersItemOf(lines, at, last, lex)
        <==> exists p: nat :: at == |Flatten(before)| + p && NumbersItem(lines[last], p, lex);
      forall r: nat | r < last ensures NumbersItemOf(lines, at, r, lex) <==> NumbersItemOf(before, at, r, lex) {
        assert lines[r] == before[r] && lines[..r] == before[..r];
      }
    }
  }

  /** The words begin with an optional conjunction, an optional fraction, and a unit. */
  predicate BeginsWithUnit(words: seq<string>, lex: Lexicon, fraction: real, multiplier: nat) {
    var rest := if words != [] && words[0] in lex.conjunctions then words[1..] else words;
    if rest != [] && rest[0] in lex.fractions then
      && |rest| > 1 && rest[1] in lex.units
      && fraction == lex.fractions[rest[0]] && multiplier == lex.units[rest[1]]
    else
      && rest != [] && rest[0] in lex.units
      && fraction == 0.0 && multiplier == lex.units[rest[0]]
  }

  ghost predicate UnitFollows(words: seq<string>, lex: Lexicon) {
    exists fraction: real, multiplier: nat :: multiplier != 0 && BeginsWithUnit(words, lex, fraction, multiplier)
  }

  /** What a number is worth where it stands: times the unit welded to it, else
      with the fraction added and times the unit that follows, else itself. */
  ghost predicate IsWorth(worth: real, value: real, suffix: string, words: seq<string>, lex: Lexicon) {
    if suffix in lex.units then worth == value * lex.units[suffix] as real
    else if UnitFollows(words, lex) then
      exists fraction: real, multiplier: nat ::
        multiplier != 0 && BeginsWithUnit(words, lex, fraction, multiplier)
        && worth == (value + fraction) * multiplier as real
    else worth == value
  }

  /** What a number is of: a welded percent sign binds tightest, then a currency
      of any number of words, then the next word. */
  ghost predicate IsOf(kind: Kind, suffix: string, words: seq<string>, lex: Lexicon) {
    var percent := suffix != "" && suffix in lex.percents;
    var currency := exists phrase :: phrase in lex.currencies && phrase <= words;
    match kind
    case Percent => percent || (!currency && words != [] && words[0] in lex.percents)
    case Currency => !percent && currency
    case Count => !percent && !currency && words != [] && words[0] in lex.counts && words[0] !in lex.percents
    case Bare => !percent && !currency && (words != [] ==> words[0] !in lex.percents + lex.counts)
  }

  ghost predicate IsHedged(words: seq<string>, lex: Lexicon) {
    exists marker :: marker in lex.approximations && |marker| <= |words| && words[|words| - |marker|..] == marker
  }

  /** Why a number is not a quantity: it counts floors, places or forms, it
      measures time, or it is bare and a year. */
  ghost predicate IsSetAside(
    before: seq<string>, after: seq<string>, body: string, suffix: string, value: real, lex: Lexicon)
  {
    || (before != [] && before[|before| - 1] in lex.floors + lex.places + lex.forms)
    || (after != [] && after[0] in lex.durations)
    || (&& IsOf(Bare, suffix, after, lex) && !UnitFollows(after, lex)
        && (|| (before != [] && before[|before| - 1] in lex.yearMarkers)
            || (&& DigitCount(body) == lex.yearDigits && value == value.Floor as real
                && lex.yearMin as real <= value <= lex.yearMax as real)))
  }

  lemma UnitsAfterAre(i: nat, folded: seq<string>, lex: Lexicon)
    requires i < |folded|
    ensures
      var span := UnitsAfter(i, folded, lex);
      && (span.multiplier != 0 <==> UnitFollows(folded[i + 1..], lex))
      && (span.multiplier != 0 ==> BeginsWithUnit(folded[i + 1..], lex, span.fraction, span.multiplier))
    ensures forall f: real, m: nat :: m != 0 && BeginsWithUnit(folded[i + 1..], lex, f, m) ==>
      UnitsAfter(i, folded, lex) == UnitSpan(f, m)
  {
    var words := folded[i + 1..];
    var rest := if words != [] && words[0] in lex.conjunctions then words[1..] else words;
    assert words != [] ==> words[0] == folded[i + 1];
    assert |words| > 1 ==> words[1] == folded[i + 2];
    assert |words| > 2 ==> words[2] == folded[i + 3];
    forall f: real, m: nat | m != 0 && BeginsWithUnit(words, lex, f, m)
      ensures UnitsAfter(i, folded, lex) == UnitSpan(f, m)
    {
    }
    var span := UnitsAfter(i, folded, lex);
    if span.multiplier != 0 {
      assert BeginsWithUnit(words, lex, span.fraction, span.multiplier);
    }
  }

  lemma ClassifiedAs(i: nat, folded: seq<string>, suffix: string, lex: Lexicon)
    requires lex.Sensible() && i < |folded|
    ensures
      var words := folded[i + 1..];
      forall kind :: IsOf(kind, suffix, words, lex) <==> kind == Classify(i, folded, suffix, lex)
  {
    var words := folded[i + 1..];
    assert words != [] ==> words[0] == folded[i + 1];
    forall phrase | phrase in lex.currencies
      ensures phrase <= words <==> i + 1 + |phrase| <= |folded| && folded[i + 1..i + 1 + |phrase|] == phrase
    {
      if i + 1 + |phrase| <= |folded| {
        assert words[..|phrase|] == folded[i + 1..i + 1 + |phrase|];
      }
    }
  }

  lemma HedgedBy(i: nat, folded: seq<string>, lex: Lexicon)
    requires i < |folded|
    ensures IsApproximated(i, folded, lex) <==> IsHedged(folded[..i], lex)
  {
    forall marker | marker in lex.approximations && |marker| <= i
      ensures folded[..i][i - |marker|..] == folded[i - |marker|..i]
    {
    }
  }

  lemma RejectedBy(i: nat, folded: seq<string>, body: string, suffix: string, value: real, lex: Lexicon)
    requires lex.Sensible() && i < |folded|
    ensures IsRejected(i, folded, body, suffix, value, lex)
       <==> IsSetAside(folded[..i], folded[i + 1..], body, suffix, value, lex)
  {
    UnitsAfterAre(i, folded, lex);
    ClassifiedAs(i, folded, suffix, lex);
    assert i > 0 ==> folded[..i][|folded[..i]| - 1] == folded[i - 1];
    assert i + 1 < |folded| ==> folded[i + 1..][0] == folded[i + 1];
  }

  /** The number in a token: its digits and separators, and what is welded to it. */
  predicate HoldsNumber(token: string, body: string, suffix: string, value: real, reader: Reader) {
    match MatchNumber(Shave(token, reader.lex), reader.lex)
    case None => false
    case Some(m) =>
      && m.body == body && reader.fold(m.suffix) == suffix && ParseNumber(body, reader.lex) == Some(value)
      && (suffix == "" || suffix in reader.lex.units || suffix in reader.lex.percents
          || forall c :: c in suffix ==> !IsLatinLetter(c))
  }

  /** A number that its neighbours leave standing, as a quantity. */
  ghost predicate IsStated(
    q: Quantity, token: string, body: string, suffix: string, value: real, before: seq<string>, after: seq<string>,
    reader: Reader)
  {
    && HoldsNumber(token, body, suffix, value, reader)
    && !IsSetAside(before, after, body, suffix, value, reader.lex)
    && q.raw == token && IsWorth(q.value, value, suffix, after, reader.lex)
    && IsOf(q.kind, suffix, after, reader.lex) && (q.approximate <==> IsHedged(before, reader.lex))
  }

  /** What a token states, in terms of the words around it: nothing when it
      holds no number or its neighbours set the number aside, else one
      quantity, worth, of and hedged as they say. */
  lemma TokenStatesExactly(i: nat, tokens: seq<string>, folded: seq<string>, reader: Reader)
    requires reader.lex.Sensible() && i < |tokens| == |folded|
    ensures
      var token, before, after := tokens[i], folded[..i], folded[i + 1..];
      match ReadToken(i, tokens, folded, reader)
      case None =>
        forall body, suffix, value :: HoldsNumber(token, body, suffix, value, reader) ==>
          IsSetAside(before, after, body, suffix, value, reader.lex)
      case Some(q) =>
        exists body, suffix, value :: IsStated(q, token, body, suffix, value, before, after, reader)
  {
    var lex := reader.lex;
    match MatchNumber(Shave(tokens[i], lex), lex)
    case None =>
    case Some(Match(body, raw)) =>
      var suffix, parsed := reader.fold(raw), ParseNumber(body, lex);
      if parsed.Some? && !IsFrancoConsonant(suffix, lex) {
        StandingNumberIsStated(i, tokens, folded, reader, body, suffix, parsed.value);
      }
  }

  lemma StandingNumberIsStated(
    i: nat, tokens: seq<string>, folded: seq<string>, reader: Reader, body: string, suffix: string, value: real)
    requires reader.lex.Sensible() && i < |tokens| == |folded|
    requires HoldsNumber(tokens[i], body, suffix, value, reader)
    ensures
      match ReadToken(i, tokens, folded, reader)
      case None => IsSetAside(folded[..i], folded[i + 1..], body, suffix, value, reader.lex)
      case Some(q) => IsStated(q, tokens[i], body, suffix, value, folded[..i], folded[i + 1..], reader)
  {
    RejectedBy(i, folded, body, suffix, value, reader.lex);
    WorthInPlace(i, folded, suffix, value, reader.lex);
    ClassifiedAs(i, folded, suffix, reader.lex);
    HedgedBy(i, folded, reader.lex);
  }

  lemma WorthInPlace(i: nat, folded: seq<string>, suffix: string, value: real, lex: Lexicon)
    requires i < |folded|
    ensures IsWorth(ApplyUnits(value, i, folded, suffix, lex), value, suffix, folded[i + 1..], lex)
  {
    UnitsAfterAre(i, folded, lex);
  }

  // ------------------------------------------------------------ which printed figures are read back

  lemma {:induction false} TrimLeftKeeps(s: string, drop: set<char>)
    requires s != "" ==> s[0] !in drop
    ensures TrimLeft(s, drop) == s
  {
  }

  lemma DigitEndsStay(s: string, lex: Lexicon)
    requires lex.Sensible() && s != "" && IsDigit(s[0]) && IsDigit(s[|s| - 1])
    ensures Shave(s, lex) == s
  {
  }

  lemma BodyMatches(s: string, lex: Lexicon)
    requires IsBody(s, lex)
    ensures MatchNumber(s, lex) == Some(Match(s, ""))
  {
    var k := BodyLength(s, lex);
    assert forall i :: 0 <= i < |s| ==> s[i] in s;
    assert k == |s| && s[..k] == s && s[k..] == "";
  }

  // ------------------------------------------------------------ printed decimals

  /** The decimals of a figure that is not whole, printed as briefly as can be. */
  predicate IsFraction(s: string) {
    s != "" && AllDigits(s) && s[|s| - 1] != '0'
  }

  function LeadingZeros(s: string): (n: nat)
    ensures n <= |s| && (forall i :: 0 <= i < n ==> s[i] == '0') && (n < |s| ==> s[n] != '0')
  {
    if s != "" && s[0] == '0' then 1 + LeadingZeros(s[1..]) else 0
  }

  /** d.ddde-XX, the exponent in two digits at least. */
  function Scientific(digits: string, exponent: nat): string
    requires digits != ""
  {
    [digits[0]] + (if |digits| == 1 then "" else "." + digits[1..])
    + "e-" + (if exponent < 10 then "0" else "") + Digits(exponent)
  }

  predicate NeedsExponent(n: nat, fraction: string) {
    n == 0 && LeadingZeros(fraction) >= 4
  }

  /** A figure that is not whole, as the tracer shows it: grouped, with a point,
      and below a ten-thousandth with an exponent. */
  function PrintedDecimal(n: nat, fraction: string): string
    requires IsFraction(fraction)
  {
    if NeedsExponent(n, fraction) then Scientific(fraction[LeadingZeros(fraction)..], LeadingZeros(fraction) + 1)
    else Readable(n) + "." + fraction
  }

  /** The number a token states on its own, unit and neighbours aside. */
  function NumberOf(token: string, lex: Lexicon): Option<real> {
    match MatchNumber(Shave(token, lex), lex)
    case Some(m) => if m.suffix == "" then ParseNumber(m.body, lex) else None
    case None => None
  }

  /** A letter with a digit after it is not part of a number. */
  lemma ExponentIsNoNumber(head: string, tail: string, lex: Lexicon)
    requires 'e' !in lex.Separators() && tail != "" && IsDigit(tail[|tail| - 1])
    ensures MatchNumber(head + "e-" + tail, lex).None?
  {
    var s := head + "e-" + tail;
    MatchIsTheLongest(s, lex);
    forall k: nat ensures !Splits(s, k, lex) {
      if |head| < k <= |s| {
        assert s[..k][|head|] == 'e' && 'e' in s[..k] && !IsDigit('e');
      } else if k <= |head| {
        var last := tail[|tail| - 1];
        assert s[k..][|s| - 1 - k] == last && last in s[k..] && IsDigit(last);
      }
    }
  }

  /** A figure that is not whole reads back from what the tracer shows exactly
      when its whole part needed no comma and it is not so small that it is
      shown with an exponent; otherwise it reads as no number at all. */
  lemma PrintedDecimalReadsBackExactly(n: nat, fraction: string, lex: Lexicon)
    requires lex.Sensible() && 'e' !in lex.Separators() && IsFraction(fraction)
    ensures
      NumberOf(PrintedDecimal(n, fraction), lex)
      == if n < 1000 && !NeedsExponent(n, fraction) then Some(Decimal(n, fraction)) else None
  {
    var s := PrintedDecimal(n, fraction);
    if NeedsExponent(n, fraction) {
      var zeros := LeadingZeros(fraction);
      var digits := fraction[zeros..];
      var head := [digits[0]] + (if |digits| == 1 then "" else "." + digits[1..]);
      var tail := (if zeros + 1 < 10 then "0" else "") + Digits(zeros + 1);
      assert s == head + "e-" + tail;
      DigitEndsStay(s, lex);
      ExponentIsNoNumber(head, tail, lex);
    } else {
      PointedParsesExactlyUngrouped(n, fraction, lex);
      DigitEndsStay(s, lex);
      BodyMatches(s, lex);
    }
  }

  lemma {:induction false} DigitCountAppend(s: string, t: string)
    ensures DigitCount(s + t) == DigitCount(s) + DigitCount(t)
    decreases |t|
  {
    if t == "" {
      assert s + t == s;
    } else {
      assert (s + t)[..|s + t| - 1] == s + t[..|t| - 1];
      DigitCountAppend(s, t[..|t| - 1]);
    }
  }

  lemma {:induction false} DigitCountOfDigits(s: string)
    requires AllDigits(s)
    ensures DigitCount(s) == |s|
  {
    if s != "" {
      DigitCountOfDigits(s[..|s| - 1]);
    }
  }

  /** A printed figure has the digits of the plain number. */
  lemma {:induction false} DigitCountReadable(n: nat)
    ensures DigitCount(Readable(n)) == |Digits(n)|
    decreases n
  {
    if n < 1000 {
      DigitCountOfDigits(Digits(n));
    } else {
      DigitCountReadable(n / 1000);
      DigitCountAppend(Readable(n / 1000) + ",", ThreeDigits(n % 1000));
      DigitCountAppend(Readable(n / 1000), ",");
      DigitCountOfDigits(ThreeDigits(n % 1000));
      assert DigitCount(",") == 0 by { assert ","[..0] == ""; }
      assert |Digits(n)| == |Digits(n / 1000)| + 3 by {
        assert n / 10 / 10 == n / 100 && n / 100 / 10 == n / 1000;
        assert |Digits(n / 10)| == |Digits(n / 100)| + 1;
      }
    }
  }

  /** The year rule's own range, on whole numbers. */
  predicate LooksLikeAYear(n: nat, lex: Lexicon) {
    |Digits(n)| == lex.yearDigits && lex.yearMin <= n <= lex.yearMax
  }

  lemma {:induction false} CollectSplit(at: nat -> seq<Quantity>, from: nat, mid: nat, to: nat)
    requires from <= mid <= to
    ensures Collect(at, from, to) == Collect(at, from, mid) + Collect(at, mid, to)
  {
    if mid < to {
      CollectSplit(at, from, mid, to - 1);
    }
  }

  lemma CollectAround(at: nat -> seq<Quantity>, i: nat, to: nat)
    requires i < to
    ensures Collect(at, 0, to) == Collect(at, 0, i) + at(i) + Collect(at, i + 1, to)
  {
    CollectSplit(at, 0, i + 1, to);
  }

  lemma {:induction false} MarkersNumberItems(lines: seq<seq<string>>, lex: Lexicon)
    ensures forall m :: m in Markers(lines, lex) ==> m < |Flatten(lines)| && IsListMarker(Flatten(lines)[m], lex)
  {
    if lines != [] {
      var before, line := lines[..|lines| - 1], lines[|lines| - 1];
      MarkersNumberItems(before, lex);
      assert lines == before + [line];
      FlattenAppend(before, line);
    }
  }

  lemma FigureIsNoMarker(lines: seq<seq<string>>, i: nat, n: nat, lex: Lexicon)
    requires lex.Sensible() && i < |Flatten(lines)| && Flatten(lines)[i] == Readable(n)
    ensures i !in Markers(lines, lex)
  {
    MarkersNumberItems(lines, lex);
    assert Readable(n)[|Readable(n)| - 1] in Readable(n);
  }

  /** The words around a printed figure say that it is no quantity: it counts
      floors, places, forms or durations, or it is a bare year. */
  predicate SetAside(i: nat, folded: seq<string>, n: nat, lex: Lexicon)
    requires i < |folded|
  {
    || Previous(i, folded) in lex.floors + lex.places + lex.forms
    || Following(i, folded) in lex.durations
    || (&& Classify(i, folded, "", lex) == Bare && UnitsAfter(i, folded, lex).multiplier == 0
        && (Previous(i, folded) in lex.yearMarkers || LooksLikeAYear(n, lex)))
  }

  lemma FigureRejected(i: nat, folded: seq<string>, n: nat, lex: Lexicon)
    requires lex.Sensible() && i < |folded|
    ensures IsRejected(i, folded, Readable(n), "", n as real, lex) <==> SetAside(i, folded, n, lex)
  {
    DigitCountReadable(n);
  }

  /** How a printed figure worth `value` is read among its neighbours. */
  function FigureAt(i: nat, folded: seq<string>, n: nat, value: real, lex: Lexicon): seq<Quantity>
    requires i < |folded|
  {
    if SetAside(i, folded, n, lex) then []
    else [Quantity(value, Classify(i, folded, "", lex), Readable(n), IsApproximated(i, folded, lex))]
  }

  lemma FigureParses(n: nat, lex: Lexicon)
    requires lex.Sensible()
    ensures MatchNumber(Shave(Readable(n), lex), lex) == Some(Match(Readable(n), ""))
    ensures IsBody(Readable(n), lex) && ParseNumber(Readable(n), lex) == Some(n as real)
  {
    assert Readable(n) + "" == Readable(n);
    PrintedFigureReadsBack(n, "", lex);
    DigitEndsStay(Readable(n), lex);
    BodyMatches(Readable(n), lex);
  }

  lemma FigureToken(i: nat, tokens: seq<string>, folded: seq<string>, n: nat, reader: Reader)
    requires reader.lex.Sensible() && reader.fold("") == ""
    requires i < |tokens| == |folded| && tokens[i] == Readable(n)
    ensures ReadAt(i, tokens, folded, {}, reader)
         == FigureAt(i, folded, n, Scaled(n as real, UnitsAfter(i, folded, reader.lex)), reader.lex)
  {
    FigureParses(n, reader.lex);
    FigureRejected(i, folded, n, reader.lex);
  }

  /** A printed whole figure anywhere in a text. The text states what the words
      before it state, then the figure, then what the words after it state; and
      the figure is read as itself, scaled by the unit words after it and tagged
      by its neighbours, exactly unless they set it aside. */
  lemma FigureInContext(lines: seq<seq<string>>, i: nat, n: nat, reader: Reader)
    requires reader.lex.Sensible() && reader.fold("") == ""
    requires i < |Flatten(lines)| && Flatten(lines)[i] == Readable(n)
    ensures
      var at, folded := ReadingOf(lines, reader), Folded(Flatten(lines), reader);
      var value := Scaled(n as real, UnitsAfter(i, folded, reader.lex));
      Extract(lines, reader)
      == Collect(at, 0, i) + FigureAt(i, folded, n, value, reader.lex) + Collect(at, i + 1, |Flatten(lines)|)
  {
    var tokens, markers := Flatten(lines), Markers(lines, reader.lex);
    FigureIsNoMarker(lines, i, n, reader.lex);
    FigureToken(i, tokens, Folded(tokens, reader), n, reader);
    CollectAround(ReadingOf(lines, reader), i, |tokens|);
  }

  /** A text states what its tokens state, one after another; and a token that
      numbers an item of its line states nothing, whatever it holds. */
  lemma TextStatesItsTokens(lines: seq<seq<string>>, i: nat, reader: Reader)
    requires i < |Flatten(lines)|
    ensures
      var tokens, at := Flatten(lines), ReadingOf(lines, reader);
      && Extract(lines, reader) == Collect(at, 0, i) + at(i) + Collect(at, i + 1, |tokens|)
      && at(i) == if exists r: nat :: r < |lines| && NumbersItemOf(lines, i, r, reader.lex) then []
                  else match ReadToken(i, tokens, Folded(tokens, reader), reader)
                       case Some(q) => [q]
                       case None => []
  {
    MarkersAreExact(lines, reader.lex, i);
    CollectAround(ReadingOf(lines, reader), i, |Flatten(lines)|);
  }

  /** On its own a printed figure is read back as itself, unless it looks like
      a year: then, and only then, it is not a figure at all. */
  lemma LoneFigureReadsBackUnlessYear(n: nat, reader: Reader)
    requires reader.lex.Sensible() && reader.fold("") == ""
    ensures Extract([[Readable(n)]], reader)
         == if LooksLikeAYear(n, reader.lex) then [] else [Quantity(n as real, Bare, Readable(n), false)]
  {
    var tokens := [Readable(n)];
    assert Flatten([tokens]) == tokens;
    FigureInContext([tokens], 0, n, reader);
    assert !PhraseFollows(0, Folded(tokens, reader), reader.lex.currencies);
  }

  /** A word that is a unit and nothing else the scan looks for. */
  predicate IsUnitWord(unit: string, reader: Reader) {
    var lex := reader.lex;
    && unit != "" && !IsDigit(unit[0]) && unit[0] !in lex.trim && unit[|unit| - 1] !in lex.trim + lex.Separators()
    && reader.fold(unit) == unit && unit in lex.units && lex.units[unit] != 0
    && unit !in lex.conjunctions && unit !in lex.fractions && unit !in lex.durations
  }

  lemma UnitIsRead(i: nat, tokens: seq<string>, unit: string, reader: Reader)
    requires reader.lex.Sensible() && IsUnitWord(unit, reader) && i + 1 < |tokens| && tokens[i + 1] == unit
    ensures
      var folded := Folded(tokens, reader);
      && UnitsAfter(i, folded, reader.lex) == UnitSpan(0.0, reader.lex.units[unit])
      && Following(i, folded) == unit && ReadToken(i + 1, tokens, folded, reader) == None
  {
    TrimLeftKeeps(unit, reader.lex.trim);
    assert Shave(unit, reader.lex) == unit;
  }

  lemma UnitScales(n: nat, multiplier: nat)
    requires multiplier != 0
    ensures Scaled(n as real, UnitSpan(0.0, multiplier)) == (n * multiplier) as real
  {
    assert n as real + 0.0 == n as real;
  }

  lemma UnitNotSetAside(i: nat, tokens: seq<string>, n: nat, unit: string, reader: Reader)
    requires reader.lex.Sensible() && IsUnitWord(unit, reader) && i + 1 < |tokens| && tokens[i + 1] == unit
    ensures
      var folded := Folded(tokens, reader);
      SetAside(i, folded, n, reader.lex)
      <==> Previous(i, folded) in reader.lex.floors + reader.lex.places + reader.lex.forms
  {
    UnitIsRead(i, tokens, unit, reader);
  }

  lemma UnitStatesNothing(lines: seq<seq<string>>, i: nat, unit: string, reader: Reader)
    requires reader.lex.Sensible() && IsUnitWord(unit, reader)
    requires i + 1 < |Flatten(lines)| && Flatten(lines)[i + 1] == unit
    ensures ReadingOf(lines, reader)(i + 1) == []
  {
    UnitIsRead(i, Flatten(lines), unit, reader);
  }

  lemma CollectSkips(at: nat -> seq<Quantity>, i: nat, to: nat)
    requires i < to && at(i) == []
    ensures Collect(at, i, to) == Collect(at, i + 1, to)
  {
    CollectSplit(at, i, i + 1, to);
    assert Collect(at, i, i + 1) == Collect(at, i, i) + at(i);
  }

  lemma FigureBeforeUnit(lines: seq<seq<string>>, i: nat, n: nat, unit: string, reader: Reader)
    requires reader.lex.Sensible() && reader.fold("") == "" && IsUnitWord(unit, reader)
    requires i + 1 < |Flatten(lines)| && Flatten(lines)[i] == Readable(n) && Flatten(lines)[i + 1] == unit
    ensures
      var at, folded := ReadingOf(lines, reader), Folded(Flatten(lines), reader);
      var value := Scaled(n as real, UnitSpan(0.0, reader.lex.units[unit]));
      Extract(lines, reader)
      == Collect(at, 0, i) + FigureAt(i, folded, n, value, reader.lex) + Collect(at, i + 2, |Flatten(lines)|)
  {
    FigureInContext(lines, i, n, reader);
    UnitIsRead(i, Flatten(lines), unit, reader);
    UnitStatesNothing(lines, i, unit, reader);
    CollectSkips(ReadingOf(lines, reader), i + 1, |Flatten(lines)|);
  }

  /** A printed figure followed by a unit word, anywhere in a text, is one
      quantity, scaled by the unit, even where the figure alone would be taken
      for a year: unless it counts floors, places or forms. The unit word
      itself states nothing. */
  lemma FigureWithUnitIsScaled(lines: seq<seq<string>>, i: nat, n: nat, unit: string, reader: Reader)
    requires reader.lex.Sensible() && reader.fold("") == "" && IsUnitWord(unit, reader)
    requires i + 1 < |Flatten(lines)| && Flatten(lines)[i] == Readable(n) && Flatten(lines)[i + 1] == unit
    ensures
      var at, folded := ReadingOf(lines, reader), Folded(Flatten(lines), reader);
      var value := (n * reader.lex.units[unit]) as real;
      Extract(lines, reader)
      == Collect(at, 0, i) + FigureAt(i, folded, n, value, reader.lex) + Collect(at, i + 2, |Flatten(lines)|)
    ensures
      var folded, lex := Folded(Flatten(lines), reader), reader.lex;
      SetAside(i, folded, n, lex) <==> Previous(i, folded) in lex.floors + lex.places + lex.forms
  {
    FigureBeforeUnit(lines, i, n, unit, reader);
    UnitScales(n, reader.lex.units[unit]);
    UnitNotSetAside(i, Flatten(lines), n, unit, reader);
  }
}
