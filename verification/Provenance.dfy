/** Where each figure of a reply came from. */
module Provenance {
  import opened Sequences
  import opened Numerals
  import opened Guards
  import Chunker

  datatype Passage = Passage(chunkId: string, content: string, title: Option<string>)

  /** Named figures in order, some of them unset. */
  type Fields = seq<(string, Option<real>)>

  /** One inventory row: what it is, and its fields. */
  datatype Row = Row(unitId: string, title: Option<string>, values: Fields)

  /** One tool output, with its results. */
  datatype Computation = Computation(tool: string, unitId: Option<string>, values: Fields)

  datatype Source =
    | Inventory(row: nat, field: string)
    | Calculator(computation: nat, field: string)
    | Chunk(passage: nat, excerpt: string)
    | Script
    | Nowhere

  datatype FigureSource = FigureSource(value: real, raw: string, grounded: bool, source: Source)

  // ------------------------------------------------------------ the searches

  /** The first field holding `v`. */
  function FieldOf(v: real, values: Fields): Option<string> {
    if values == [] then None
    else if values[0].1 == Some(v) then Some(values[0].0)
    else FieldOf(v, values[1..])
  }

  predicate Holds(v: real, values: Fields) {
    exists f :: f in values && f.1 == Some(v)
  }

  lemma {:induction false} FieldOfFinds(v: real, values: Fields)
    ensures FieldOf(v, values).Some? <==> Holds(v, values)
    ensures FieldOf(v, values).Some? ==> (FieldOf(v, values).value, Some(v)) in values
  {
    if values != [] {
      FieldOfFinds(v, values[1..]);
      assert values[0] in values;
      assert forall f :: f in values <==> f == values[0] || f in values[1..];
    }
  }

  predicate NoneHolds(v: real, tables: seq<Fields>, n: nat)
    requires n <= |tables|
  {
    forall k :: 0 <= k < n ==> !Holds(v, tables[k])
  }

  /** The first table with a field of that value, and the first such field. */
  predicate IsFirstHolding(found: Option<(nat, string)>, v: real, tables: seq<Fields>) {
    match found
    case None => NoneHolds(v, tables, |tables|)
    case Some((i, field)) => i < |tables| && FieldOf(v, tables[i]) == Some(field) && NoneHolds(v, tables, i)
  }

  method FirstHolding(v: real, tables: seq<Fields>) returns (found: Option<(nat, string)>)
    ensures IsFirstHolding(found, v, tables)
  {
    for i := 0 to |tables|
      invariant NoneHolds(v, tables, i)
    {
      FieldOfFinds(v, tables[i]);
      var field := FieldOf(v, tables[i]);
      if field.Some? {
        return Some((i, field.value));
      }
    }
    return None;
  }

  function RowFields(rows: seq<Row>): seq<Fields> {
    seq(|rows|, i requires 0 <= i < |rows| => rows[i].values)
  }

  function ComputationFields(computations: seq<Computation>): seq<Fields> {
    seq(|computations|, i requires 0 <= i < |computations| => computations[i].values)
  }

  method InRow(v: real, rows: seq<Row>) returns (found: Option<(nat, string)>)
    ensures IsFirstHolding(found, v, RowFields(rows))
  {
    found := FirstHolding(v, RowFields(rows));
  }

  method InComputation(v: real, computations: seq<Computation>) returns (found: Option<(nat, string)>)
    ensures IsFirstHolding(found, v, ComputationFields(computations))
  {
    found := FirstHolding(v, ComputationFields(computations));
  }

  predicate States(v: real, passage: Passage, extract: Extractor) {
    v in Values(extract(passage.content))
  }

  /** The first passage stating `v`. */
  method Find(v: real, passages: seq<Passage>, extract: Extractor) returns (found: Option<nat>)
    ensures found.Some? ==>
      && found.value < |passages| && States(v, passages[found.value], extract)
      && forall k :: 0 <= k < found.value ==> !States(v, passages[k], extract)
    ensures found.None? ==> forall k :: 0 <= k < |passages| ==> !States(v, passages[k], extract)
  {
    for i := 0 to |passages|
      invariant forall k :: 0 <= k < i ==> !States(v, passages[k], extract)
    {
      if v in Values(extract(passages[i].content)) {
        return Some(i);
      }
    }
    return None;
  }

  // ------------------------------------------------------------ the sentence it was stated in

  datatype Style = Style(endings: set<char>, digitMap: map<char, char>, blanks: set<char>)

  /** Finished sentences and the open one, after the first `n` characters. */
  function Scan(text: string, endings: set<char>, n: nat): (seq<string>, string)
    requires n <= |text|
  {
    if n == 0 then ([], "")
    else
      var (done, open) := Scan(text, endings, n - 1);
      var current := open + [text[n - 1]];
      if text[n - 1] in endings then (done + [current], "") else (done, current)
  }

  function Sentences(text: string, endings: set<char>): seq<string> {
    var (done, open) := Scan(text, endings, |text|);
    if open == "" then done else done + [open]
  }

  method SplitSentences(content: string, style: Style) returns (parts: seq<string>)
    ensures parts == Sentences(NormalizeDigits(content, style.digitMap), style.endings)
  {
    var text := NormalizeDigits(content, style.digitMap);
    parts := [];
    var current := "";
    for i := 0 to |text|
      invariant (parts, current) == Scan(text, style.endings, i)
    {
      current := current + [text[i]];
      if text[i] in style.endings {
        parts := parts + [current];
        current := "";
      }
    }
    if current != "" {
      parts := parts + [current];
    }
  }

  predicate EndsIn(s: string, endings: set<char>) {
    s != "" && s[|s| - 1] in endings
  }

  /** No ending but perhaps the last character. */
  predicate EndsOnce(s: string, endings: set<char>) {
    forall i :: 0 <= i < |s| - 1 ==> s[i] !in endings
  }

  lemma {:induction false} ScanCovers(text: string, endings: set<char>, n: nat)
    requires n <= |text|
    ensures
      var (done, open) := Scan(text, endings, n);
      && Flatten(done) + open == text[..n]
      && (forall k :: 0 <= k < |done| ==> EndsIn(done[k], endings) && EndsOnce(done[k], endings))
      && (forall c :: c in open ==> c !in endings)
  {
    if n > 0 {
      ScanCovers(text, endings, n - 1);
      var (done, open) := Scan(text, endings, n - 1);
      FlattenAppend(done, open + [text[n - 1]]);
    }
  }

  /** Splitting a passage into sentences loses nothing of it but its digit
      script, leaves no sentence empty, ends every one but perhaps the last at
      an ending character, and runs none past one. */
  lemma SentencesCover(text: string, endings: set<char>)
    ensures Flatten(Sentences(text, endings)) == text
    ensures forall k :: 0 <= k < |Sentences(text, endings)| ==>
      && Sentences(text, endings)[k] != "" && EndsOnce(Sentences(text, endings)[k], endings)
      && (k < |Sentences(text, endings)| - 1 ==> EndsIn(Sentences(text, endings)[k], endings))
  {
    ScanCovers(text, endings, |text|);
    var (done, open) := Scan(text, endings, |text|);
    assert text[..|text|] == text;
    if open == "" {
      assert Flatten(done) + "" == Flatten(done);
    } else {
      FlattenAppend(done, open);
    }
  }

  function SentencesOf(content: string, style: Style): seq<string> {
    Sentences(NormalizeDigits(content, style.digitMap), style.endings)
  }

  predicate NoneStates(v: real, parts: seq<string>, extract: Extractor, n: nat)
    requires n <= |parts|
  {
    forall j :: 0 <= j < n ==> v !in Values(extract(parts[j]))
  }

  predicate FirstStating(v: real, parts: seq<string>, extract: Extractor, k: nat) {
    k < |parts| && v in Values(extract(parts[k])) && NoneStates(v, parts, extract, k)
  }

  /** What may be shown for a figure found in `content`: the first sentence that
      states it, or the whole passage if none does. */
  ghost predicate IsExcerpt(excerpt: string, v: real, content: string, extract: Extractor, style: Style) {
    var parts := SentencesOf(content, style);
    if NoneStates(v, parts, extract, |parts|) then excerpt == Trim(content, style.blanks)
    else exists k: nat :: FirstStating(v, parts, extract, k) && excerpt == Trim(parts[k], style.blanks)
  }

  method ExcerptFor(v: real, content: string, extract: Extractor, style: Style) returns (excerpt: string)
    ensures IsExcerpt(excerpt, v, content, extract, style)
  {
    var parts := SplitSentences(content, style);
    for i := 0 to |parts|
      invariant NoneStates(v, parts, extract, i)
    {
      if v in Values(extract(parts[i])) {
        assert FirstStating(v, parts, extract, i);
        return Trim(parts[i], style.blanks);
      }
    }
    return Trim(content, style.blanks);
  }

  /** The stretch of the passage that its sentence `k` is made from. */
  function OwnWords(content: string, style: Style, k: nat): string
    requires k < |SentencesOf(content, style)|
  {
    var parts := SentencesOf(content, style);
    var from := |Flatten(parts[..k])|;
    SentenceAt(content, style, k);
    content[from..from + |parts[k]|]
  }

  lemma PartAt(parts: seq<string>, k: nat)
    requires k < |parts|
    ensures
      var whole, from := Flatten(parts), |Flatten(parts[..k])|;
      from + |parts[k]| <= |whole| && whole[from..from + |parts[k]|] == parts[k]
  {
    assert parts == parts[..k] + ([parts[k]] + parts[k + 1..]);
    FlattenSplit(parts[..k], [parts[k]] + parts[k + 1..]);
    assert ([parts[k]] + parts[k + 1..])[1..] == parts[k + 1..];
  }

  lemma SentenceAt(content: string, style: Style, k: nat)
    requires k < |SentencesOf(content, style)|
    ensures
      var parts := SentencesOf(content, style);
      var from := |Flatten(parts[..k])|;
      && from + |parts[k]| <= |content|
      && parts[k] == NormalizeDigits(content, style.digitMap)[from..from + |parts[k]|]
  {
    SentencesCover(NormalizeDigits(content, style.digitMap), style.endings);
    PartAt(SentencesOf(content, style), k);
  }

  /** Digits are not whitespace, whatever their script, and none is its own
      Latin form. */
  predicate Proper(style: Style) {
    forall c :: c in style.digitMap ==>
      c !in style.blanks && style.digitMap[c] !in style.blanks && style.digitMap[c] != c
  }

  predicate InLatinDigits(s: string, style: Style) {
    forall c :: c in s ==> c !in style.digitMap
  }

  lemma {:induction false} TrimLeftNormalized(s: string, style: Style)
    requires Proper(style)
    ensures TrimLeft(NormalizeDigits(s, style.digitMap), style.blanks)
         == NormalizeDigits(TrimLeft(s, style.blanks), style.digitMap)
  {
    if s != "" {
      assert NormalizeDigits(s, style.digitMap)[1..] == NormalizeDigits(s[1..], style.digitMap);
      TrimLeftNormalized(s[1..], style);
    }
  }

  lemma {:induction false} TrimRightAlike(s: string, t: string, blanks: set<char>)
    requires |s| == |t| && forall i :: 0 <= i < |s| ==> (s[i] in blanks <==> t[i] in blanks)
    ensures |TrimRight(s, blanks)| == |TrimRight(t, blanks)|
  {
    if s != "" {
      TrimRightAlike(s[..|s| - 1], t[..|t| - 1], blanks);
    }
  }

  lemma TrimRightNormalized(s: string, style: Style)
    requires Proper(style)
    ensures TrimRight(NormalizeDigits(s, style.digitMap), style.blanks)
         == NormalizeDigits(TrimRight(s, style.blanks), style.digitMap)
  {
    TrimRightAlike(s, NormalizeDigits(s, style.digitMap), style.blanks);
  }

  lemma NormalizedIsVerbatimExactly(s: string, style: Style)
    requires Proper(style)
    ensures NormalizeDigits(s, style.digitMap) == s <==> InLatinDigits(s, style)
  {
    var normalized := NormalizeDigits(s, style.digitMap);
    if normalized == s {
      forall i | 0 <= i < |s| ensures s[i] !in style.digitMap {
        assert normalized[i] == s[i];
      }
    }
  }

  /** The excerpt kept as evidence. Where a sentence states the figure, it is
      that stretch of the passage, trimmed, in Latin digits: the passage's own
      words exactly when it was written in them. Where none does, it is the
      passage itself, trimmed, whatever its digits. */
  lemma ExcerptIsVerbatimExactlyInLatinDigits(
    excerpt: string, v: real, content: string, extract: Extractor, style: Style)
    requires Proper(style) && IsExcerpt(excerpt, v, content, extract, style)
    ensures forall k: nat :: FirstStating(v, SentencesOf(content, style), extract, k) ==>
      var own := Trim(OwnWords(content, style, k), style.blanks);
      excerpt == NormalizeDigits(own, style.digitMap) && (excerpt == own <==> InLatinDigits(own, style))
    ensures
      NoneStates(v, SentencesOf(content, style), extract, |SentencesOf(content, style)|) ==>
        excerpt == Trim(content, style.blanks)
  {
    var parts := SentencesOf(content, style);
    forall k: nat | FirstStating(v, parts, extract, k)
      ensures
        var own := Trim(OwnWords(content, style, k), style.blanks);
        excerpt == NormalizeDigits(own, style.digitMap) && (excerpt == own <==> InLatinDigits(own, style))
    {
      var own := OwnWords(content, style, k);
      SentenceAt(content, style, k);
      assert parts[k] == NormalizeDigits(own, style.digitMap);
      TrimLeftNormalized(own, style);
      TrimRightNormalized(TrimLeft(own, style.blanks), style);
      NormalizedIsVerbatimExactly(Trim(own, style.blanks), style);
    }
  }

  // ------------------------------------------------------------ the chunker's sentences

  predicate AllBlank(s: string, blanks: set<char>) {
    forall c :: c in s ==> c in blanks
  }

  /** Part `k` lies within piece `j`, when both cut up the same text. */
  predicate Encloses(pieces: seq<string>, j: nat, parts: seq<string>, k: nat) {
    && j < |pieces| && k < |parts|
    && var from := |Flatten(parts[..k])| - |Flatten(pieces[..j])|;
       0 <= from <= from + |parts[k]| <= |pieces[j]| && pieces[j][from..from + |parts[k]|] == parts[k]
  }

  /** What of piece `j` stands before part `k`, and after it. */
  function Beside(pieces: seq<string>, j: nat, parts: seq<string>, k: nat): (string, string)
    requires Encloses(pieces, j, parts, k)
  {
    var from := |Flatten(parts[..k])| - |Flatten(pieces[..j])|;
    (pieces[j][..from], pieces[j][from + |parts[k]|..])
  }

  /** The chunker never cuts between `a` and `b`, so one of its pieces holds both. */
  lemma {:induction false} PieceAround(
    text: string, start: nat, at: nat, abc: Chunker.Alphabet, a: nat, b: nat) returns (j: nat, from: nat, to: nat)
    requires start <= at <= |text| && start <= a < b <= |text|
    requires forall p :: a < p < b ==> !Chunker.EndsAt(text, p, abc)
    ensures
      var pieces := Chunker.Pieces(text, start, at, abc);
      && j < |pieces| && from <= a && b <= to <= |text|
      && pieces[j] == text[from..to] && start + |Flatten(pieces[..j])| == from
    decreases |text| - at
  {
    var pieces := Chunker.Pieces(text, start, at, abc);
    if Chunker.EndsAt(text, at, abc) && start < at {
      if at <= a {
        j, from, to := PieceAround(text, at, at + 1, abc, a, b);
        assert pieces[..j + 1] == [text[start..at]] + pieces[1..][..j];
        assert pieces[..j + 1][1..] == pieces[1..][..j];
        j := j + 1;
      } else {
        j, from, to := 0, start, at;
      }
    } else if at == |text| {
      j, from, to := 0, start, at;
    } else {
      j, from, to := PieceAround(text, start, at + 1, abc, a, b);
    }
  }

  lemma NoCutInside(text: string, endings: set<char>, abc: Chunker.Alphabet, a: nat, b: nat)
    requires abc.terminators <= endings && a < b <= |text| && EndsOnce(text[a..b], endings)
    ensures forall p :: a < p < b ==> !Chunker.EndsAt(text, p, abc)
  {
    forall p | a < p < b ensures !Chunker.EndsAt(text, p, abc) {
      assert text[p - 1] == text[a..b][p - 1 - a];
    }
  }

  /** A sentence of the tracer's is within one of the chunker's pieces. */
  lemma SentenceIsEnclosed(text: string, endings: set<char>, abc: Chunker.Alphabet, k: nat) returns (j: nat)
    requires abc.terminators <= endings && k < |Sentences(text, endings)|
    ensures Encloses(Chunker.Pieces(text, 0, 0, abc), j, Sentences(text, endings), k)
  {
    var parts := Sentences(text, endings);
    var a := |Flatten(parts[..k])|;
    var b := a + |parts[k]|;
    SentencesCover(text, endings);
    PartAt(parts, k);
    NoCutInside(text, endings, abc, a, b);
    var from, to;
    j, from, to := PieceAround(text, 0, 0, abc, a, b);
    SliceOfSlice(text, from, to - from, a - from, b - a);
  }

  lemma {:induction false} BlankOrInk(s: string, blanks: set<char>)
    ensures Chunker.Ink(s, blanks) == "" <==> AllBlank(s, blanks)
  {
    if s != "" {
      BlankOrInk(s[1..], blanks);
      assert forall c :: c in s <==> c == s[0] || c in s[1..];
    }
  }

  lemma TrimKeepsInk(s: string, blanks: set<char>)
    ensures Chunker.Ink(Trim(s, blanks), blanks) == Chunker.Ink(s, blanks)
  {
    Chunker.TrimKeepsInk(s, blanks);
    Chunker.TrimKeepsInk(TrimLeft(s, blanks), blanks);
  }

  lemma {:induction false} TrimLeftPast(before: string, s: string, blanks: set<char>)
    requires AllBlank(before, blanks)
    ensures TrimLeft(before + s, blanks) == TrimLeft(s, blanks)
  {
    if before == "" {
      assert before + s == s;
    } else {
      assert (before + s)[1..] == before[1..] + s;
      TrimLeftPast(before[1..], s, blanks);
    }
  }

  lemma {:induction false} TrimLeftOf(s: string, after: string, blanks: set<char>)
    ensures TrimLeft(s + after, blanks)
         == if AllBlank(s, blanks) then TrimLeft(after, blanks) else TrimLeft(s, blanks) + after
    ensures AllBlank(s, blanks) ==> TrimLeft(s, blanks) == ""
  {
    if s == "" {
      assert s + after == after;
    } else {
      assert (s + after)[1..] == s[1..] + after;
      TrimLeftOf(s[1..], after, blanks);
      assert forall c :: c in s <==> c == s[0] || c in s[1..];
    }
  }

  lemma TrimPast(before: string, s: string, after: string, blanks: set<char>)
    requires AllBlank(before, blanks) && AllBlank(after, blanks)
    ensures Trim(before + s + after, blanks) == Trim(s, blanks)
  {
    assert before + s + after == before + (s + after);
    TrimLeftPast(before, s + after, blanks);
    TrimLeftOf(s, after, blanks);
    TrimLeftOf(after, "", blanks);
    assert after + "" == after;
    TrimTail(TrimLeft(s, blanks), after, blanks);
  }

  /** Trimming sees through what is around a text exactly when that is blank. */
  lemma TrimsAlikeExactlyAmongBlanks(before: string, s: string, after: string, blanks: set<char>)
    ensures Trim(before + s + after, blanks) == Trim(s, blanks)
       <==> AllBlank(before, blanks) && AllBlank(after, blanks)
  {
    if AllBlank(before, blanks) && AllBlank(after, blanks) {
      TrimPast(before, s, after, blanks);
    } else {
      TrimKeepsInk(before + s + after, blanks);
      TrimKeepsInk(s, blanks);
      Chunker.InkAppend(before + s, after, blanks);
      Chunker.InkAppend(before, s, blanks);
      BlankOrInk(before, blanks);
      BlankOrInk(after, blanks);
    }
  }

  lemma {:induction false} TrimmedHolds(pieces: seq<string>, j: nat, blanks: set<char>)
    requires j < |pieces| && Trim(pieces[j], blanks) != ""
    ensures Trim(pieces[j], blanks) in Chunker.Trimmed(pieces, blanks)
  {
    if j > 0 {
      TrimmedHolds(pieces[1..], j - 1, blanks);
    }
  }

  /** Whether the excerpt is a sentence as the chunker understands one, which
      needs whitespace after its ending. The tracer cuts at every ending
      character, so its sentence is all or part of one of the chunker's; and
      the excerpt is that one, trimmed, exactly when nothing but whitespace
      stands beside it there. */
  lemma ExcerptIsAChunkSentenceExactly(
    excerpt: string, v: real, content: string, extract: Extractor, style: Style, abc: Chunker.Alphabet, k: nat)
    returns (j: nat)
    requires abc.terminators <= style.endings && abc.blanks == style.blanks
    requires IsExcerpt(excerpt, v, content, extract, style)
    requires FirstStating(v, SentencesOf(content, style), extract, k)
    ensures
      var text, parts := NormalizeDigits(content, style.digitMap), SentencesOf(content, style);
      var pieces := Chunker.Pieces(text, 0, 0, abc);
      && Encloses(pieces, j, parts, k)
      && var (before, after) := Beside(pieces, j, parts, k);
         && (excerpt == Trim(pieces[j], style.blanks)
             <==> AllBlank(before, style.blanks) && AllBlank(after, style.blanks))
         && (excerpt == Trim(pieces[j], style.blanks) && excerpt != "" ==>
               excerpt in Chunker.SplitSentences(text, abc))
  {
    var text, parts := NormalizeDigits(content, style.digitMap), SentencesOf(content, style);
    j := SentenceIsEnclosed(text, style.endings, abc, k);
    ExcerptOfSentence(excerpt, v, content, extract, style, k);
    AloneExactlyAmongBlanks(Chunker.Pieces(text, 0, 0, abc), j, parts, k, style.blanks);
  }

  lemma ExcerptOfSentence(excerpt: string, v: real, content: string, extract: Extractor, style: Style, k: nat)
    requires IsExcerpt(excerpt, v, content, extract, style)
    requires FirstStating(v, SentencesOf(content, style), extract, k)
    ensures excerpt == Trim(SentencesOf(content, style)[k], style.blanks)
  {
  }

  lemma AloneExactlyAmongBlanks(pieces: seq<string>, j: nat, parts: seq<string>, k: nat, blanks: set<char>)
    requires Encloses(pieces, j, parts, k)
    ensures
      var (before, after) := Beside(pieces, j, parts, k);
      Trim(parts[k], blanks) == Trim(pieces[j], blanks) <==> AllBlank(before, blanks) && AllBlank(after, blanks)
    ensures Trim(pieces[j], blanks) != "" ==> Trim(pieces[j], blanks) in Chunker.Trimmed(pieces, blanks)
  {
    var (before, after) := Beside(pieces, j, parts, k);
    assert pieces[j] == before + parts[k] + after;
    TrimsAlikeExactlyAmongBlanks(before, parts[k], after, blanks);
    if Trim(pieces[j], blanks) != "" {
      TrimmedHolds(pieces, j, blanks);
    }
  }

  lemma CutInTwo(endings: set<char>)
    requires '.' in endings && '6' !in endings && '5' !in endings
    ensures Sentences("6.5", endings) == ["6.", "5"]
  {
    var text := "6.5";
    assert Scan(text, endings, 0) == ([], "");
    var (none, six) := Scan(text, endings, 1);
    assert none == [] && six == "6" by {
      assert text[0] == '6' && "" + ['6'] == "6";
    }
    var (one, open) := Scan(text, endings, 2);
    assert one == ["6."] && open == "" by {
      assert text[1] == '.' && "6" + ['.'] == "6.";
    }
    assert text[2] == '5' && "" + ['5'] == "5";
  }

  lemma KeptInOne(abc: Chunker.Alphabet)
    requires forall c :: c in "6.5" ==> c !in abc.blanks
    requires '6' !in abc.terminators && '5' !in abc.terminators
    ensures Chunker.SplitSentences("6.5", abc) == ["6.5"]
  {
    var text := "6.5";
    assert Chunker.Pieces(text, 0, 2, abc) == [text];
    assert Chunker.Pieces(text, 0, 0, abc) == [text];
    assert Trim(text, abc.blanks) == text;
    assert Chunker.Trimmed([text][1..], abc.blanks) == [];
  }

  /** One that is not: of 6.5 the tracer makes two sentences, and a figure it
      reads in the first is shown as "6.", which is no sentence of the chunker's. */
  lemma DecimalIsCutInTwo(excerpt: string, v: real, extract: Extractor, style: Style, abc: Chunker.Alphabet)
    requires abc.terminators <= style.endings && abc.blanks == style.blanks && '.' in style.endings
    requires forall c :: c in "6.5" ==> c !in style.digitMap && c !in style.blanks
    requires '6' !in style.endings && '5' !in style.endings
    requires v in Values(extract("6.")) && IsExcerpt(excerpt, v, "6.5", extract, style)
    ensures excerpt == "6." && Chunker.SplitSentences("6.5", abc) == ["6.5"]
  {
    assert NormalizeDigits("6.5", style.digitMap) == "6.5";
    CutInTwo(style.endings);
    assert FirstStating(v, SentencesOf("6.5", style), extract, 0);
    assert Trim("6.", style.blanks) == "6.";
    KeptInOne(abc);
  }

  // ------------------------------------------------------------ the trace

  predicate NoPassage(v: real, passages: seq<Passage>, extract: Extractor, n: nat)
    requires n <= |passages|
  {
    forall k :: 0 <= k < n ==> !States(v, passages[k], extract)
  }

  datatype Evidence = Evidence(
    passages: seq<Passage>, constants: seq<Constant>, rows: seq<Row>, computations: seq<Computation>)

  /** `f` is figure `q` with what produced it: a row before a computation,
      before a passage, before a script constant, and the first of its kind. */
  ghost predicate IsTrace(f: FigureSource, q: Quantity, e: Evidence, extract: Extractor, style: Style) {
    var v, rows, tools := q.value, RowFields(e.rows), ComputationFields(e.computations);
    && f.value == v && f.raw == q.raw && (f.grounded <==> f.source != Nowhere)
    && (f.source.Inventory? || NoneHolds(v, rows, |rows|))
    && (f.source.Inventory? || f.source.Calculator? || NoneHolds(v, tools, |tools|))
    && (f.source.Script? || f.source.Nowhere? ==> NoPassage(v, e.passages, extract, |e.passages|))
    && match f.source
       case Inventory(i, field) => IsFirstHolding(Some((i, field)), v, rows)
       case Calculator(i, field) => IsFirstHolding(Some((i, field)), v, tools)
       case Chunk(i, excerpt) =>
         && i < |e.passages| && States(v, e.passages[i], extract) && NoPassage(v, e.passages, extract, i)
         && IsExcerpt(excerpt, v, e.passages[i].content, extract, style)
       case Script => v in ConstantPool(e.constants, extract)
       case Nowhere => v !in ConstantPool(e.constants, extract)
  }

  method TraceOne(q: Quantity, e: Evidence, extract: Extractor, style: Style, constants: set<real>)
    returns (f: FigureSource)
    requires constants == ConstantPool(e.constants, extract)
    ensures IsTrace(f, q, e, extract, style)
  {
    var row := InRow(q.value, e.rows);
    if row.Some? {
      return FigureSource(q.value, q.raw, true, Inventory(row.value.0, row.value.1));
    }
    var tool := InComputation(q.value, e.computations);
    if tool.Some? {
      return FigureSource(q.value, q.raw, true, Calculator(tool.value.0, tool.value.1));
    }
    var passage := Find(q.value, e.passages, extract);
    if passage.Some? {
      var excerpt := ExcerptFor(q.value, e.passages[passage.value].content, extract, style);
      return FigureSource(q.value, q.raw, true, Chunk(passage.value, excerpt));
    }
    if IsGrounded(q.value, constants) {
      return FigureSource(q.value, q.raw, true, Script);
    }
    return FigureSource(q.value, q.raw, false, Nowhere);
  }

  method TraceFigures(reply: string, e: Evidence, extract: Extractor, style: Style)
    returns (traced: seq<FigureSource>)
    ensures AreTraces(traced, extract(reply), e, extract, style)
  {
    var constants := CollectSources([], e.constants, extract);
    assert PassagePool([], extract) + ConstantPool(e.constants, extract) == ConstantPool(e.constants, extract);
    var quantities := extract(reply);
    traced := [];
    for i := 0 to |quantities|
      invariant |traced| == i
      invariant forall k :: 0 <= k < i ==> IsTrace(traced[k], quantities[k], e, extract, style)
    {
      var f := TraceOne(quantities[i], e, extract, style, constants);
      traced := traced + [f];
    }
  }

  ghost predicate AreTraces(
    traced: seq<FigureSource>, quantities: seq<Quantity>, e: Evidence, extract: Extractor, style: Style)
  {
    |traced| == |quantities|
    && forall k :: 0 <= k < |traced| ==> IsTrace(traced[k], quantities[k], e, extract, style)
  }

  // ------------------------------------------------------------ the trace agrees with the gate

  function Contents(passages: seq<Passage>): seq<string> {
    seq(|passages|, i requires 0 <= i < |passages| => passages[i].content)
  }

  lemma ContentsState(v: real, passages: seq<Passage>, extract: Extractor)
    ensures (exists p :: p in Contents(passages) && v in Values(extract(p)))
       <==> !NoPassage(v, passages, extract, |passages|)
  {
    var contents := Contents(passages);
    if p :| p in contents && v in Values(extract(p)) {
      var k :| 0 <= k < |contents| && contents[k] == p;
      assert States(v, passages[k], extract);
    }
    if k :| 0 <= k < |passages| && States(v, passages[k], extract) {
      assert contents[k] in contents;
    }
  }

  lemma HeldByTables(v: real, e: Evidence)
    ensures NoneHolds(v, RowFields(e.rows), |e.rows|) <==> forall k :: 0 <= k < |e.rows| ==> !Holds(v, e.rows[k].values)
    ensures NoneHolds(v, ComputationFields(e.computations), |e.computations|)
       <==> forall k :: 0 <= k < |e.computations| ==> !Holds(v, e.computations[k].values)
  {
    var rows, tools := RowFields(e.rows), ComputationFields(e.computations);
    assert forall k :: 0 <= k < |rows| ==> rows[k] == e.rows[k].values;
    assert forall k :: 0 <= k < |tools| ==> tools[k] == e.computations[k].values;
  }

  /** A figure is marked grounded exactly when a row, a computation, a passage
      or a script constant holds it. */
  lemma GroundedExactlyWhenSupported(f: FigureSource, q: Quantity, e: Evidence, extract: Extractor, style: Style)
    requires IsTrace(f, q, e, extract, style)
    ensures f.grounded <==>
      || (exists k :: 0 <= k < |e.rows| && Holds(q.value, e.rows[k].values))
      || (exists k :: 0 <= k < |e.computations| && Holds(q.value, e.computations[k].values))
      || IsGrounded(q.value, Pool(Contents(e.passages), e.constants, extract))
  {
    HeldByTables(q.value, e);
    ContentsState(q.value, e.passages, extract);
    InPassagePool(q.value, Contents(e.passages), extract);
    match f.source
    case Inventory(i, _) => FieldOfFinds(q.value, e.rows[i].values);
    case Calculator(i, _) => FieldOfFinds(q.value, e.computations[i].values);
    case _ =>
  }

  function Ungrounded(traced: seq<FigureSource>): seq<real> {
    if traced == [] then []
    else (if traced[0].grounded then [] else [traced[0].value]) + Ungrounded(traced[1..])
  }

  /** The tracer refines the gate. On the same passages and constants, with no
      rows or computations, it grounds exactly what the gate grounds, so the
      gate's orphans are the figures it leaves untraced, in order. */
  lemma {:induction false} TracerRefinesGate(
    traced: seq<FigureSource>, quantities: seq<Quantity>, e: Evidence, extract: Extractor, style: Style)
    requires AreTraces(traced, quantities, e, extract, style) && e.rows == [] && e.computations == []
    ensures Ungrounded(traced) == Orphans(quantities, Pool(Contents(e.passages), e.constants, extract))
    decreases |traced|
  {
    if traced != [] {
      GroundedExactlyWhenSupported(traced[0], quantities[0], e, extract, style);
      forall k | 0 <= k < |traced[1..]|
        ensures IsTrace(traced[1..][k], quantities[1..][k], e, extract, style)
      {
        assert traced[1..][k] == traced[k + 1] && quantities[1..][k] == quantities[k + 1];
      }
      TracerRefinesGate(traced[1..], quantities[1..], e, extract, style);
    }
  }

  /** A delivered reply's trace leaves no figure without a source. */
  lemma PassedReplyTracesCompletely(
    reply: string, traced: seq<FigureSource>, e: Evidence, extract: Extractor, style: Style)
    requires e.rows == [] && e.computations == [] && AreTraces(traced, extract(reply), e, extract, style)
    requires CheckNumericGrounding(reply, Contents(e.passages), e.constants, extract).passed
    ensures forall k :: 0 <= k < |traced| ==> traced[k].grounded
  {
    TracerRefinesGate(traced, extract(reply), e, extract, style);
    AllGrounded(traced);
  }

  lemma {:induction false} AllGrounded(traced: seq<FigureSource>)
    requires Ungrounded(traced) == []
    ensures forall k :: 0 <= k < |traced| ==> traced[k].grounded
  {
    if traced != [] {
      AllGrounded(traced[1..]);
      forall k | 0 <= k < |traced| ensures traced[k].grounded {
        if k > 0 {
          assert traced[k] == traced[1..][k - 1];
        }
      }
    }
  }
}
