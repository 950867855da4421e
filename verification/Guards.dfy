/** What must hold of a turn whatever the model produced: identifiers are cut
    out before anything leaves, and every figure in a reply has a source. */
module Guards {
  import opened Sequences
  import opened Numerals

  // ------------------------------------------------------------ redaction

  datatype Span = Span(lo: nat, hi: nat, tag: string)

  /** A labelled pattern and where it matches in a text, left to right. */
  datatype Pattern = Pattern(tag: string, matches: string -> seq<(nat, nat)>)

  datatype Redaction = Redaction(text: string, found: seq<string>)

  /** A match lies inside the text it was found in. */
  predicate InBounds(text: string, patterns: seq<Pattern>) {
    forall i :: 0 <= i < |patterns| ==> forall m :: m in patterns[i].matches(text) ==> m.0 <= m.1 <= |text|
  }

  predicate Overlap(a: Span, b: Span) {
    a.lo < b.hi && b.lo < a.hi
  }

  function Labelled(tag: string, matches: seq<(nat, nat)>): seq<Span> {
    seq(|matches|, i requires 0 <= i < |matches| => Span(matches[i].0, matches[i].1, tag))
  }

  /** Every match of every pattern, in configured order. */
  function Candidates(text: string, patterns: seq<Pattern>): seq<Span> {
    if patterns == [] then []
    else
      var last := patterns[|patterns| - 1];
      Candidates(text, patterns[..|patterns| - 1]) + Labelled(last.tag, last.matches(text))
  }

  /** First come, first served: a match is taken unless it overlaps one taken before it. */
  function Choose(candidates: seq<Span>): seq<Span> {
    if candidates == [] then []
    else
      var taken := Choose(candidates[..|candidates| - 1]);
      var x := candidates[|candidates| - 1];
      if exists t :: t in taken && Overlap(x, t) then taken else taken + [x]
  }

  lemma {:induction false} ChosenAreDisjoint(candidates: seq<Span>)
    ensures forall x :: x in Choose(candidates) ==> x in candidates
    ensures forall i, j :: 0 <= i < j < |Choose(candidates)| ==> !Overlap(Choose(candidates)[i], Choose(candidates)[j])
  {
    if candidates != [] {
      var before := candidates[..|candidates| - 1];
      ChosenAreDisjoint(before);
      var taken := Choose(before);
      assert forall i :: 0 <= i < |taken| ==> taken[i] in taken;
    }
  }

  predicate Before(a: Span, b: Span) {
    a.lo < b.lo || (a.lo == b.lo && a.hi <= b.hi)
  }

  function Insert(x: Span, sorted: seq<Span>): seq<Span> {
    if sorted == [] || Before(x, sorted[0]) then [x] + sorted else [sorted[0]] + Insert(x, sorted[1..])
  }

  function Sort(spans: seq<Span>): seq<Span> {
    if spans == [] then [] else Insert(spans[0], Sort(spans[1..]))
  }

  /** The spans that are cut, left to right. */
  function Cuts(normalized: string, patterns: seq<Pattern>): seq<Span> {
    Sort(Choose(Candidates(normalized, patterns)))
  }

  function Excerpt(text: string, x: Span): string {
    if x.lo <= x.hi <= |text| then text[x.lo..x.hi] else ""
  }

  /** The two ways to fill the places of the cut spans. */
  function Placeholders(placeholder: string -> string): Span -> string {
    (x: Span) => placeholder(x.tag)
  }

  function Originals(text: string): Span -> string {
    (x: Span) => Excerpt(text, x)
  }

  /** The text from `cursor` on, with each span replaced by its filler. */
  function Rebuild(text: string, spans: seq<Span>, cursor: nat, fill: Span -> string): string
    requires Ascending(spans, cursor, |text|)
  {
    if spans == [] then text[cursor..]
    else text[cursor..spans[0].lo] + fill(spans[0]) + Rebuild(text, spans[1..], spans[0].hi, fill)
  }

  /** The spans follow one another without overlap, from `cursor` to `limit`. */
  predicate Ascending(spans: seq<Span>, cursor: nat, limit: nat) {
    if spans == [] then cursor <= limit
    else cursor <= spans[0].lo <= spans[0].hi <= limit && Ascending(spans[1..], spans[0].hi, limit)
  }

  function Labels(spans: seq<Span>): seq<string> {
    if spans == [] then [] else [spans[0].tag] + Labels(spans[1..])
  }

  // Sorting pairwise disjoint spans puts them one after another.

  lemma {:induction false} InsertKeeps(x: Span, sorted: seq<Span>)
    ensures multiset(Insert(x, sorted)) == multiset(sorted) + multiset{x}
    ensures |Insert(x, sorted)| == |sorted| + 1
  {
    if sorted != [] && !Before(x, sorted[0]) {
      InsertKeeps(x, sorted[1..]);
      assert sorted == [sorted[0]] + sorted[1..];
    }
  }

  lemma {:induction false} SortKeeps(spans: seq<Span>)
    ensures multiset(Sort(spans)) == multiset(spans)
  {
    if spans != [] {
      SortKeeps(spans[1..]);
      InsertKeeps(spans[0], Sort(spans[1..]));
      assert spans == [spans[0]] + spans[1..];
    }
  }

  lemma {:induction false} InsertAscends(x: Span, sorted: seq<Span>, cursor: nat, limit: nat)
    requires Ascending(sorted, cursor, limit) && cursor <= x.lo <= x.hi <= limit
    requires forall t :: t in sorted ==> !Overlap(x, t)
    ensures Ascending(Insert(x, sorted), cursor, limit)
  {
    if sorted != [] {
      var t := sorted[0];
      assert t in sorted && !Overlap(x, t);
      if Before(x, t) {
        assert ([x] + sorted)[1..] == sorted;
      } else {
        InsertAscends(x, sorted[1..], t.hi, limit);
        assert ([t] + Insert(x, sorted[1..]))[1..] == Insert(x, sorted[1..]);
      }
    } else {
      assert [x][1..] == [];
    }
  }

  lemma {:induction false} SortAscends(spans: seq<Span>, limit: nat)
    requires forall i, j :: 0 <= i < j < |spans| ==> !Overlap(spans[i], spans[j])
    requires forall x :: x in spans ==> x.lo <= x.hi <= limit
    ensures Ascending(Sort(spans), 0, limit)
  {
    if spans != [] {
      SortAscends(spans[1..], limit);
      SortKeeps(spans[1..]);
      var sorted := Sort(spans[1..]);
      forall t | t in sorted ensures !Overlap(spans[0], t) {
        assert t in multiset(sorted);
        assert t in spans[1..];
      }
      InsertAscends(spans[0], sorted, 0, limit);
    }
  }

  lemma {:induction false} CandidatesInBounds(text: string, patterns: seq<Pattern>)
    requires InBounds(text, patterns)
    ensures forall x :: x in Candidates(text, patterns) ==> x.lo <= x.hi <= |text|
  {
    if patterns != [] {
      var last := patterns[|patterns| - 1];
      CandidatesInBounds(text, patterns[..|patterns| - 1]);
      forall x | x in Labelled(last.tag, last.matches(text)) ensures x.lo <= x.hi <= |text| {
        var i :| 0 <= i < |last.matches(text)| && x == Labelled(last.tag, last.matches(text))[i];
        assert last.matches(text)[i] in last.matches(text);
      }
    }
  }

  lemma CutsAscend(text: string, normalized: string, patterns: seq<Pattern>)
    requires |normalized| == |text| && InBounds(normalized, patterns)
    ensures Ascending(Cuts(normalized, patterns), 0, |text|)
  {
    CandidatesInBounds(normalized, patterns);
    ChosenAreDisjoint(Candidates(normalized, patterns));
    SortAscends(Choose(Candidates(normalized, patterns)), |text|);
  }

  lemma ChooseNext(before: seq<Span>, mine: seq<Span>, k: nat)
    requires k < |mine|
    ensures
      var taken := Choose(before + mine[..k]);
      Choose(before + mine[..k + 1])
      == if exists t :: t in taken && Overlap(mine[k], t) then taken else taken + [mine[k]]
  {
    assert (before + mine[..k + 1])[..|before| + k] == before + mine[..k];
  }

  /** The matches of one pattern, on top of the candidates before it. */
  method TakeMatches(taken: seq<Span>, tag: string, matches: seq<(nat, nat)>, ghost before: seq<Span>)
    returns (spans: seq<Span>)
    requires taken == Choose(before)
    ensures spans == Choose(before + Labelled(tag, matches))
  {
    spans := taken;
    ghost var mine := Labelled(tag, matches);
    assert before + mine[..0] == before;
    for k := 0 to |matches|
      invariant spans == Choose(before + mine[..k])
    {
      var x := Span(matches[k].0, matches[k].1, tag);
      ChooseNext(before, mine, k);
      if !exists t :: t in spans && Overlap(x, t) {
        spans := spans + [x];
      }
    }
    assert mine[..|matches|] == mine;
  }

  method Redact(text: string, patterns: seq<Pattern>, placeholder: string -> string, digitMap: map<char, char>)
    returns (r: Redaction)
    requires InBounds(NormalizeDigits(text, digitMap), patterns)
    ensures Ascending(Cuts(NormalizeDigits(text, digitMap), patterns), 0, |text|)
    ensures
      var cuts := Cuts(NormalizeDigits(text, digitMap), patterns);
      && r.text == Rebuild(text, cuts, 0, Placeholders(placeholder))
      && r.found == Labels(cuts)
  {
    var normalized := NormalizeDigits(text, digitMap);
    CutsAscend(text, normalized, patterns);
    var spans: seq<Span> := [];
    for i := 0 to |patterns|
      invariant spans == Choose(Candidates(normalized, patterns[..i]))
    {
      assert patterns[..i + 1][..i] == patterns[..i];
      spans := TakeMatches(spans, patterns[i].tag, patterns[i].matches(normalized),
                           Candidates(normalized, patterns[..i]));
    }
    assert patterns[..|patterns|] == patterns;
    spans := Sort(spans);
    r := Cut(text, spans, placeholder);
  }

  /** Cut the spans out of the original and put the placeholders in. */
  method Cut(text: string, spans: seq<Span>, placeholder: string -> string) returns (r: Redaction)
    requires Ascending(spans, 0, |text|)
    ensures r.text == Rebuild(text, spans, 0, Placeholders(placeholder))
    ensures r.found == Labels(spans)
  {
    var pieces, found := "", [];
    var cursor: nat := 0;
    ghost var fill := Placeholders(placeholder);
    for k := 0 to |spans|
      invariant Ascending(spans[k..], cursor, |text|)
      invariant pieces + Rebuild(text, spans[k..], cursor, fill) == Rebuild(text, spans, 0, fill)
      invariant found + Labels(spans[k..]) == Labels(spans)
    {
      var x := spans[k];
      assert spans[k..][1..] == spans[k + 1..];
      pieces := pieces + text[cursor..x.lo] + placeholder(x.tag);
      found := found + [x.tag];
      cursor := x.hi;
    }
    r := Redaction(pieces + text[cursor..], found);
  }

  lemma {:induction false} RebuildRestores(text: string, spans: seq<Span>, cursor: nat)
    requires Ascending(spans, cursor, |text|)
    ensures Rebuild(text, spans, cursor, Originals(text)) == text[cursor..]
  {
    if spans != [] {
      AscendingFits(spans, cursor, |text|);
      RebuildRestores(text, spans[1..], spans[0].hi);
      assert text[cursor..] == text[cursor..spans[0].lo] + text[spans[0].lo..spans[0].hi] + text[spans[0].hi..];
    }
  }

  lemma {:induction false} AscendingFits(spans: seq<Span>, cursor: nat, limit: nat)
    requires Ascending(spans, cursor, limit)
    ensures cursor <= limit && forall x :: x in spans ==> cursor <= x.lo <= x.hi <= limit
  {
    if spans != [] {
      AscendingFits(spans[1..], spans[0].hi, limit);
    }
  }

  /** `x` is match `k` of pattern `i`, under that pattern's label. */
  predicate MatchedAt(text: string, patterns: seq<Pattern>, x: Span, i: nat, k: nat) {
    && i < |patterns| && k < |patterns[i].matches(text)|
    && patterns[i].matches(text)[k] == (x.lo, x.hi) && patterns[i].tag == x.tag
  }

  /** Some match that comes before match `k` of pattern `i`, in the order the
      patterns are configured, overlaps `x` and is cut. */
  ghost predicate GivesWay(text: string, patterns: seq<Pattern>, cuts: seq<Span>, x: Span, i: nat, k: nat) {
    exists t: Span, j: nat, l: nat ::
      MatchedAt(text, patterns, t, j, l) && t in cuts && Overlap(x, t) && (j < i || (j == i && l < k))
  }

  lemma {:induction false} CandidatesAreMatches(text: string, patterns: seq<Pattern>)
    ensures forall x :: x in Candidates(text, patterns) ==> exists i: nat, k: nat :: MatchedAt(text, patterns, x, i, k)
  {
    if patterns != [] {
      var before, last := patterns[..|patterns| - 1], patterns[|patterns| - 1];
      CandidatesAreMatches(text, before);
      forall x | x in Candidates(text, patterns)
        ensures exists i: nat, k: nat :: MatchedAt(text, patterns, x, i, k)
      {
        if x in Candidates(text, before) {
          var i: nat, k: nat :| MatchedAt(text, before, x, i, k);
          assert MatchedAt(text, patterns, x, i, k);
        } else {
          var k :| 0 <= k < |last.matches(text)| && Labelled(last.tag, last.matches(text))[k] == x;
          assert MatchedAt(text, patterns, x, |patterns| - 1, k);
        }
      }
    }
  }

  lemma {:induction false} ChooseGrows(candidates: seq<Span>, more: seq<Span>)
    ensures forall x :: x in Choose(candidates) ==> x in Choose(candidates + more)
    decreases |more|
  {
    if more == [] {
      assert candidates + more == candidates;
    } else {
      assert (candidates + more)[..|candidates + more| - 1] == candidates + more[..|more| - 1];
      ChooseGrows(candidates, more[..|more| - 1]);
    }
  }

  /** Every match is taken, or gives way to one that was taken before it. */
  lemma {:induction false} EveryMatchIsServed(text: string, patterns: seq<Pattern>, x: Span, i: nat, k: nat)
    requires MatchedAt(text, patterns, x, i, k)
    ensures
      var taken := Choose(Candidates(text, patterns));
      x in taken || GivesWay(text, patterns, taken, x, i, k)
    decreases |patterns|
  {
    var before, last := patterns[..|patterns| - 1], patterns[|patterns| - 1];
    var mine := Labelled(last.tag, last.matches(text));
    ChooseGrows(Candidates(text, before), mine);
    if i < |before| {
      EveryMatchIsServed(text, before, x, i, k);
      if GivesWay(text, before, Choose(Candidates(text, before)), x, i, k) {
        var t: Span, j: nat, l: nat :|
          MatchedAt(text, before, t, j, l) && t in Choose(Candidates(text, before)) && Overlap(x, t)
          && (j < i || (j == i && l < k));
        assert MatchedAt(text, patterns, t, j, l);
      }
    } else {
      LastMatchIsServed(text, patterns, x, k);
    }
  }

  lemma LastMatchIsServed(text: string, patterns: seq<Pattern>, x: Span, k: nat)
    requires patterns != [] && MatchedAt(text, patterns, x, |patterns| - 1, k)
    ensures
      var taken := Choose(Candidates(text, patterns));
      x in taken || GivesWay(text, patterns, taken, x, |patterns| - 1, k)
  {
    var before, last := patterns[..|patterns| - 1], patterns[|patterns| - 1];
    var earlier, mine := Candidates(text, before), Labelled(last.tag, last.matches(text));
    var taken := Choose(earlier + mine[..k]);
    assert mine[k] == x && earlier + mine == (earlier + mine[..k + 1]) + mine[k + 1..];
    ChooseNext(earlier, mine, k);
    ChooseGrows(earlier + mine[..k + 1], mine[k + 1..]);
    if t :| t in taken && Overlap(x, t) {
      ChosenAreDisjoint(earlier + mine[..k]);
      if t in earlier {
        CandidatesAreMatches(text, before);
        var j: nat, l: nat :| MatchedAt(text, before, t, j, l);
        assert MatchedAt(text, patterns, t, j, l);
      } else {
        var l :| 0 <= l < k && mine[l] == t;
        assert MatchedAt(text, patterns, t, |patterns| - 1, l);
      }
    }
  }

  /** Redaction is exact. What is cut is, left to right, matches of the
      patterns that do not overlap, each under its pattern's label; every match
      of every pattern is cut, or overlaps a cut one that comes before it in
      the configured order; and putting the cut pieces back where the
      placeholders went restores the original, whatever its digit script. */
  lemma RedactionIsExact(text: string, patterns: seq<Pattern>, digitMap: map<char, char>)
    requires InBounds(NormalizeDigits(text, digitMap), patterns)
    ensures
      var normalized := NormalizeDigits(text, digitMap);
      var cuts := Cuts(normalized, patterns);
      && Ascending(cuts, 0, |text|)
      && (forall x :: x in cuts ==> exists i: nat, k: nat :: MatchedAt(normalized, patterns, x, i, k))
      && (forall x: Span, i: nat, k: nat :: MatchedAt(normalized, patterns, x, i, k) ==>
            x in cuts || GivesWay(normalized, patterns, cuts, x, i, k))
      && Rebuild(text, cuts, 0, Originals(text)) == text
  {
    var normalized := NormalizeDigits(text, digitMap);
    var candidates := Candidates(normalized, patterns);
    CutsAscend(text, normalized, patterns);
    CutsAreChosen(candidates);
    ChosenAreDisjoint(candidates);
    CandidatesAreMatches(normalized, patterns);
    forall x: Span, i: nat, k: nat | MatchedAt(normalized, patterns, x, i, k)
      ensures x in Sort(Choose(candidates)) || GivesWay(normalized, patterns, Sort(Choose(candidates)), x, i, k)
    {
      EveryMatchIsServed(normalized, patterns, x, i, k);
      if x !in Choose(candidates) {
        var t: Span, j: nat, l: nat :|
          MatchedAt(normalized, patterns, t, j, l) && t in Choose(candidates) && Overlap(x, t)
          && (j < i || (j == i && l < k));
        assert t in Sort(Choose(candidates));
      }
    }
    RebuildRestores(text, Cuts(normalized, patterns), 0);
    assert text[0..] == text;
  }

  lemma CutsAreChosen(candidates: seq<Span>)
    ensures forall x :: x in Sort(Choose(candidates)) <==> x in Choose(candidates)
  {
    var chosen := Choose(candidates);
    SortKeeps(chosen);
    forall x: Span
      ensures x in Sort(chosen) <==> x in chosen
    {
      assert x in Sort(chosen) <==> x in multiset(Sort(chosen));
      assert x in chosen <==> x in multiset(chosen);
    }
  }

  predicate Covers(x: Span, k: nat) {
    x.lo <= k < x.hi
  }

  /** When no pattern matches the empty text, every match loses at least one of
      its own characters: no identifier survives whole. */
  lemma NoMatchSurvivesWhole(
    text: string, patterns: seq<Pattern>, digitMap: map<char, char>, x: Span, i: nat, k: nat)
    returns (cut: Span, at: nat)
    requires forall c: Span, j: nat, l: nat ::
      MatchedAt(NormalizeDigits(text, digitMap), patterns, c, j, l) ==> c.lo < c.hi
    requires MatchedAt(NormalizeDigits(text, digitMap), patterns, x, i, k)
    ensures cut in Cuts(NormalizeDigits(text, digitMap), patterns) && Covers(cut, at) && Covers(x, at)
  {
    var normalized := NormalizeDigits(text, digitMap);
    var taken := Choose(Candidates(normalized, patterns));
    CutsAreChosen(Candidates(normalized, patterns));
    EveryMatchIsServed(normalized, patterns, x, i, k);
    if x in taken {
      cut, at := x, x.lo;
    } else {
      var t: Span, j: nat, l: nat :|
        MatchedAt(normalized, patterns, t, j, l) && t in taken && Overlap(x, t) && (j < i || (j == i && l < k));
      cut, at := t, if x.lo < t.lo then t.lo else x.lo;
    }
    assert cut in Cuts(normalized, patterns);
  }

  /** Where the next cut starts, or the text ends. */
  function NextCut(text: string, spans: seq<Span>, k: nat): nat
    requires k < |spans|
  {
    if k + 1 < |spans| then spans[k + 1].lo else |text|
  }

  lemma FirstIsReplaced(text: string, spans: seq<Span>, cursor: nat, placeholder: string -> string)
    returns (after: string)
    requires Ascending(spans, cursor, |text|) && spans != []
    ensures spans[0].hi <= NextCut(text, spans, 0) <= |text|
    ensures Rebuild(text, spans, cursor, Placeholders(placeholder))
         == text[cursor..spans[0].lo] + placeholder(spans[0].tag)
            + text[spans[0].hi..NextCut(text, spans, 0)] + after
  {
    var fill := Placeholders(placeholder);
    var rest := Rebuild(text, spans[1..], spans[0].hi, fill);
    AscendingFits(spans, cursor, |text|);
    if |spans| == 1 {
      after := "";
      assert rest == text[spans[0].hi..|text|] + after;
    } else {
      AscendingFits(spans[1..], spans[0].hi, |text|);
      assert spans[1..][0] == spans[1];
      after := fill(spans[1]) + Rebuild(text, spans[1..][1..], spans[1].hi, fill);
      assert rest == text[spans[0].hi..spans[1].lo] + after;
    }
    var head := text[cursor..spans[0].lo] + fill(spans[0]);
    assert head + rest == head + text[spans[0].hi..NextCut(text, spans, 0)] + after;
  }

  /** Where cut `k` was, the redacted text has the placeholder of its label,
      followed by the original up to the next cut. */
  lemma {:induction false} CutsAreReplaced(
    text: string, spans: seq<Span>, cursor: nat, k: nat, placeholder: string -> string)
    returns (before: string, after: string)
    requires Ascending(spans, cursor, |text|) && k < |spans|
    ensures spans[k].hi <= NextCut(text, spans, k) <= |text|
    ensures Rebuild(text, spans, cursor, Placeholders(placeholder))
         == before + placeholder(spans[k].tag) + text[spans[k].hi..NextCut(text, spans, k)] + after
  {
    if k == 0 {
      before := text[cursor..spans[0].lo];
      after := FirstIsReplaced(text, spans, cursor, placeholder);
    } else {
      var fill := Placeholders(placeholder);
      var inner;
      inner, after := CutsAreReplaced(text, spans[1..], spans[0].hi, k - 1, placeholder);
      var head := text[cursor..spans[0].lo] + fill(spans[0]);
      var own, kept := placeholder(spans[k].tag), text[spans[k].hi..NextCut(text, spans, k)];
      before := head + inner;
      assert head + (inner + own + kept + after) == before + own + kept + after;
    }
  }

  lemma {:induction false} LabelsAreTags(spans: seq<Span>)
    ensures |Labels(spans)| == |spans| && forall k :: 0 <= k < |spans| ==> Labels(spans)[k] == spans[k].tag
  {
    if spans != [] {
      LabelsAreTags(spans[1..]);
    }
  }

  // ------------------------------------------------------------ numeric grounding

  /** A figure the script itself may state: a number, or text to read numbers from. */
  datatype Constant = Number(value: real) | Text(text: string)

  type Extractor = string -> seq<Quantity>

  function Values(quantities: seq<Quantity>): set<real> {
    set q | q in quantities :: q.value
  }

  function ConstantValues(c: Constant, extract: Extractor): set<real> {
    match c
    case Number(v) => {v}
    case Text(t) => Values(extract(t))
  }

  predicate Supports(v: real, passages: seq<string>, constants: seq<Constant>, extract: Extractor) {
    || (exists p :: p in passages && v in Values(extract(p)))
    || (exists c :: c in constants && v in ConstantValues(c, extract))
  }

  /** The pooled figures a reply may state, from both grounding surfaces. */
  method CollectSources(passages: seq<string>, constants: seq<Constant>, extract: Extractor)
    returns (numbers: set<real>)
    ensures numbers == Pool(passages, constants, extract)
  {
    numbers := {};
    for i := 0 to |passages|
      invariant numbers == PassagePool(passages[..i], extract)
    {
      assert passages[..i + 1][..i] == passages[..i];
      numbers := numbers + Values(extract(passages[i]));
    }
    assert passages[..|passages|] == passages;
    for i := 0 to |constants|
      invariant numbers == PassagePool(passages, extract) + ConstantPool(constants[..i], extract)
    {
      assert constants[..i + 1][..i] == constants[..i];
      match constants[i] {
        case Number(v) => numbers := numbers + {v};
        case Text(t) => numbers := numbers + Values(extract(t));
      }
    }
    assert constants[..|constants|] == constants;
  }

  function PassagePool(passages: seq<string>, extract: Extractor): set<real> {
    if passages == [] then {}
    else PassagePool(passages[..|passages| - 1], extract) + Values(extract(passages[|passages| - 1]))
  }

  function ConstantPool(constants: seq<Constant>, extract: Extractor): set<real> {
    if constants == [] then {}
    else ConstantPool(constants[..|constants| - 1], extract) + ConstantValues(constants[|constants| - 1], extract)
  }

  function Pool(passages: seq<string>, constants: seq<Constant>, extract: Extractor): set<real> {
    PassagePool(passages, extract) + ConstantPool(constants, extract)
  }

  lemma {:induction false} InPassagePool(v: real, passages: seq<string>, extract: Extractor)
    ensures v in PassagePool(passages, extract) <==> exists p :: p in passages && v in Values(extract(p))
  {
    if passages != [] {
      InPassagePool(v, passages[..|passages| - 1], extract);
      assert forall p :: p in passages <==> p in passages[..|passages| - 1] || p == passages[|passages| - 1];
    }
  }

  lemma {:induction false} InConstantPool(v: real, constants: seq<Constant>, extract: Extractor)
    ensures v in ConstantPool(constants, extract) <==> exists c :: c in constants && v in ConstantValues(c, extract)
  {
    if constants != [] {
      InConstantPool(v, constants[..|constants| - 1], extract);
      assert forall c :: c in constants <==> c in constants[..|constants| - 1] || c == constants[|constants| - 1];
    }
  }

  lemma PoolIsSupport(v: real, passages: seq<string>, constants: seq<Constant>, extract: Extractor)
    ensures v in Pool(passages, constants, extract) <==> Supports(v, passages, constants, extract)
  {
    InPassagePool(v, passages, extract);
    InConstantPool(v, constants, extract);
  }

  datatype Grounding = Grounding(
    passed: bool, orphans: seq<real>, hedged: seq<real>, replyNumbers: seq<real>, sources: set<real>)

  predicate IsGrounded(v: real, sources: set<real>) {
    v in sources
  }

  function Orphans(quantities: seq<Quantity>, sources: set<real>): seq<real> {
    if quantities == [] then []
    else
      (if IsGrounded(quantities[0].value, sources) then [] else [quantities[0].value])
      + Orphans(quantities[1..], sources)
  }

  function Hedged(quantities: seq<Quantity>, sources: set<real>): seq<real> {
    if quantities == [] then []
    else
      (if IsGrounded(quantities[0].value, sources) && quantities[0].approximate then [quantities[0].value] else [])
      + Hedged(quantities[1..], sources)
  }

  function Numbers(quantities: seq<Quantity>): seq<real> {
    if quantities == [] then [] else [quantities[0].value] + Numbers(quantities[1..])
  }

  function CheckNumericGrounding(
    reply: string, passages: seq<string>, constants: seq<Constant>, extract: Extractor): Grounding
  {
    var quantities := extract(reply);
    var sources := Pool(passages, constants, extract);
    var orphans := Orphans(quantities, sources);
    var hedged := Hedged(quantities, sources);
    Grounding(orphans == [] && hedged == [], orphans, hedged, Numbers(quantities), sources)
  }

  /** The values of the quantities for which `bad` holds, all and in order. */
  function Failing(quantities: seq<Quantity>, bad: Quantity -> bool): seq<real> {
    if quantities == [] then []
    else
      var before, last := quantities[..|quantities| - 1], quantities[|quantities| - 1];
      Failing(before, bad) + if bad(last) then [last.value] else []
  }

  lemma {:induction false} FailingCons(quantities: seq<Quantity>, bad: Quantity -> bool)
    requires quantities != []
    ensures Failing(quantities, bad)
         == (if bad(quantities[0]) then [quantities[0].value] else []) + Failing(quantities[1..], bad)
  {
    var n := |quantities|;
    if n == 1 {
      assert quantities[..0] == [] && quantities[1..] == [];
    } else {
      var before := quantities[..n - 1];
      FailingCons(before, bad);
      assert before[1..] == quantities[1..][..n - 2];
      var head := if bad(quantities[0]) then [quantities[0].value] else [];
      var tail := if bad(quantities[n - 1]) then [quantities[n - 1].value] else [];
      assert head + Failing(before[1..], bad) + tail == head + (Failing(before[1..], bad) + tail);
    }
  }

  lemma {:induction false} ReportedAreFailing(quantities: seq<Quantity>, sources: set<real>)
    ensures Orphans(quantities, sources) == Failing(quantities, (q: Quantity) => q.value !in sources)
    ensures Hedged(quantities, sources) == Failing(quantities, (q: Quantity) => q.value in sources && q.approximate)
  {
    if quantities != [] {
      ReportedAreFailing(quantities[1..], sources);
      FailingCons(quantities, (q: Quantity) => q.value !in sources);
      FailingCons(quantities, (q: Quantity) => q.value in sources && q.approximate);
    }
  }

  lemma {:induction false} FailingFigures(quantities: seq<Quantity>, sources: set<real>)
    ensures Orphans(quantities, sources) == [] <==> forall q :: q in quantities ==> IsGrounded(q.value, sources)
    ensures Orphans(quantities, sources) == [] ==>
      (Hedged(quantities, sources) == [] <==> forall q :: q in quantities ==> !q.approximate)
    ensures forall v :: v in Orphans(quantities, sources) ==> v !in sources
    ensures forall v :: v in Hedged(quantities, sources) ==> v in sources
    ensures |Orphans(quantities, sources)| + |Hedged(quantities, sources)| <= |quantities|
  {
    if quantities != [] {
      FailingFigures(quantities[1..], sources);
      assert forall q :: q in quantities <==> q == quantities[0] || q in quantities[1..];
    }
  }

  /** The gate passes a reply exactly when every figure in it is stated by a
      passage or a script constant and none is hedged; and no incident is
      reported under both headings. */
  lemma GateIsExact(reply: string, passages: seq<string>, constants: seq<Constant>, extract: Extractor)
    ensures
      var g := CheckNumericGrounding(reply, passages, constants, extract);
      && (g.passed <==> forall q :: q in extract(reply) ==>
            Supports(q.value, passages, constants, extract) && !q.approximate)
      && (forall v :: v in g.sources <==> Supports(v, passages, constants, extract))
      && g.orphans == Failing(extract(reply), (q: Quantity) => q.value !in g.sources)
      && g.hedged == Failing(extract(reply), (q: Quantity) => q.value in g.sources && q.approximate)
      && (forall v :: v in g.orphans ==> v !in g.hedged)
      && |g.replyNumbers| == |extract(reply)|
      && (forall i :: 0 <= i < |extract(reply)| ==> g.replyNumbers[i] == extract(reply)[i].value)
      && |g.orphans| + |g.hedged| <= |g.replyNumbers|
  {
    var quantities := extract(reply);
    FailingFigures(quantities, Pool(passages, constants, extract));
    ReportedAreFailing(quantities, Pool(passages, constants, extract));
    forall v
      ensures v in Pool(passages, constants, extract) <==> Supports(v, passages, constants, extract)
    {
      PoolIsSupport(v, passages, constants, extract);
    }
    NumbersAreValues(quantities);
  }

  lemma {:induction false} NumbersAreValues(quantities: seq<Quantity>)
    ensures |Numbers(quantities)| == |quantities|
    ensures forall i :: 0 <= i < |quantities| ==> Numbers(quantities)[i] == quantities[i].value
  {
    if quantities != [] {
      NumbersAreValues(quantities[1..]);
    }
  }
}
