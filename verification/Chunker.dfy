/** Splitting a document into overlapping chunks that never cut a sentence. */
module Chunker {
  import opened Sequences

  // ------------------------------------------------------------ sentences

  datatype Alphabet = Alphabet(terminators: set<char>, blanks: set<char>)

  /** A sentence ends after a terminator that whitespace or the end follows. */
  predicate EndsAt(text: string, at: nat, abc: Alphabet)
    requires at <= |text|
  {
    at > 0 && text[at - 1] in abc.terminators && (at == |text| || text[at] in abc.blanks)
  }

  /** The pieces between sentence ends; `start` is where the open piece begins. */
  function Pieces(text: string, start: nat, at: nat, abc: Alphabet): seq<string>
    requires start <= at <= |text|
    decreases |text| - at
  {
    if EndsAt(text, at, abc) && start < at then
      if at == |text| then [text[start..at]]
      else [text[start..at]] + Pieces(text, at, at + 1, abc)
    else if at == |text| then [text[start..]]
    else Pieces(text, start, at + 1, abc)
  }

  function Trimmed(pieces: seq<string>, blanks: set<char>): seq<string> {
    if pieces == [] then []
    else
      var piece := Trim(pieces[0], blanks);
      (if piece == "" then [] else [piece]) + Trimmed(pieces[1..], blanks)
  }

  function SplitSentences(text: string, abc: Alphabet): seq<string> {
    Trimmed(Pieces(text, 0, 0, abc), abc.blanks)
  }

  /** What of a text is not whitespace. */
  function Ink(s: string, blanks: set<char>): string {
    if s == [] then [] else (if s[0] in blanks then [] else [s[0]]) + Ink(s[1..], blanks)
  }

  lemma {:induction false} InkAppend(s: string, t: string, blanks: set<char>)
    ensures Ink(s + t, blanks) == Ink(s, blanks) + Ink(t, blanks)
  {
    if s == [] {
      assert s + t == t;
    } else {
      assert (s + t)[1..] == s[1..] + t;
      InkAppend(s[1..], t, blanks);
    }
  }

  lemma {:induction false} TrimKeepsInk(s: string, blanks: set<char>)
    ensures Ink(TrimLeft(s, blanks), blanks) == Ink(s, blanks)
    ensures Ink(TrimRight(s, blanks), blanks) == Ink(s, blanks)
  {
    if s != [] {
      TrimKeepsInk(s[1..], blanks);
      TrimKeepsInk(s[..|s| - 1], blanks);
      assert s == s[..|s| - 1] + [s[|s| - 1]];
      InkAppend(s[..|s| - 1], [s[|s| - 1]], blanks);
    }
  }

  lemma {:induction false} PiecesCover(text: string, start: nat, at: nat, abc: Alphabet)
    requires start <= at <= |text|
    ensures Flatten(Pieces(text, start, at, abc)) == text[start..]
    decreases |text| - at
  {
    if EndsAt(text, at, abc) && start < at {
      if at < |text| {
        PiecesCover(text, at, at + 1, abc);
        assert text[start..] == text[start..at] + text[at..];
      }
    } else if at < |text| {
      PiecesCover(text, start, at + 1, abc);
    }
  }

  lemma {:induction false} TrimmedKeepsInk(pieces: seq<string>, blanks: set<char>)
    ensures Ink(Flatten(Trimmed(pieces, blanks)), blanks) == Ink(Flatten(pieces), blanks)
    ensures forall s :: s in Trimmed(pieces, blanks) ==> s != ""
  {
    if pieces != [] {
      var piece := Trim(pieces[0], blanks);
      TrimmedKeepsInk(pieces[1..], blanks);
      TrimKeepsInk(pieces[0], blanks);
      TrimKeepsInk(TrimLeft(pieces[0], blanks), blanks);
      InkAppend(pieces[0], Flatten(pieces[1..]), blanks);
      InkAppend(piece, Flatten(Trimmed(pieces[1..], blanks)), blanks);
      assert ([piece] + Trimmed(pieces[1..], blanks))[1..] == Trimmed(pieces[1..], blanks);
      assert [] + Trimmed(pieces[1..], blanks) == Trimmed(pieces[1..], blanks);
    }
  }

  /** Splitting drops whitespace and nothing else. */
  lemma SplittingKeepsInk(text: string, abc: Alphabet)
    ensures Ink(Flatten(SplitSentences(text, abc)), abc.blanks) == Ink(text, abc.blanks)
    ensures forall s :: s in SplitSentences(text, abc) ==> s != ""
  {
    PiecesCover(text, 0, 0, abc);
    assert text[0..] == text;
    TrimmedKeepsInk(Pieces(text, 0, 0, abc), abc.blanks);
  }

  /** Where the pieces end. */
  function Ends(pieces: seq<string>, from: nat): set<nat> {
    if pieces == [] then {} else {from + |pieces[0]|} + Ends(pieces[1..], from + |pieces[0]|)
  }

  lemma {:induction false} PiecesEnd(text: string, start: nat, at: nat, abc: Alphabet)
    requires start <= at <= |text|
    requires forall p :: start < p < at ==> !EndsAt(text, p, abc)
    ensures forall p :: start < p < |text| ==>
      (p in Ends(Pieces(text, start, at, abc), start) <==> EndsAt(text, p, abc))
    decreases |text| - at
  {
    var pieces := Pieces(text, start, at, abc);
    if EndsAt(text, at, abc) && start < at {
      if at < |text| {
        PiecesEnd(text, at, at + 1, abc);
        EndsBeyond(Pieces(text, at, at + 1, abc), at);
        assert pieces[1..] == Pieces(text, at, at + 1, abc);
      } else {
        assert pieces[1..] == [];
      }
    } else if at == |text| {
      assert pieces[1..] == [];
    } else {
      PiecesEnd(text, start, at + 1, abc);
    }
  }

  lemma {:induction false} EndsBeyond(pieces: seq<string>, from: nat)
    ensures forall p :: p in Ends(pieces, from) ==> p >= from
  {
    if pieces != [] {
      EndsBeyond(pieces[1..], from + |pieces[0]|);
    }
  }

  /** A text is cut exactly after each terminator that whitespace follows. */
  lemma CutsExactlyAtEnds(text: string, abc: Alphabet, p: nat)
    requires 0 < p < |text|
    ensures p in Ends(Pieces(text, 0, 0, abc), 0) <==> text[p - 1] in abc.terminators && text[p] in abc.blanks
  {
    PiecesEnd(text, 0, 0, abc);
  }

  // ------------------------------------------------------------ packing

  /** The running length of a chunk: every sentence and one separator each. */
  function Packed(parts: seq<string>): nat {
    if parts == [] then 0 else Packed(parts[..|parts| - 1]) + |parts[|parts| - 1]| + 1
  }

  lemma PackedNext(s: seq<string>, lo: nat, n: nat)
    requires lo <= n < |s|
    ensures s[lo..n + 1] == s[lo..n] + [s[n]]
    ensures Packed(s[lo..n + 1]) == Packed(s[lo..n]) + |s[n]| + 1
  {
    assert s[lo..n + 1][..n - lo] == s[lo..n];
  }

  function Join(parts: seq<string>): string {
    if parts == [] then "" else if |parts| == 1 then parts[0]
    else Join(parts[..|parts| - 1]) + " " + parts[|parts| - 1]
  }

  lemma {:induction false} JoinLength(parts: seq<string>)
    requires parts != []
    ensures |Join(parts)| == Packed(parts) - 1
  {
    if |parts| > 1 {
      JoinLength(parts[..|parts| - 1]);
    }
  }

  lemma {:induction false} JoinAppend(first: seq<string>, rest: seq<string>)
    requires first != [] && rest != []
    ensures Join(first + rest) == Join(first) + " " + Join(rest)
    decreases |rest|
  {
    var all := first + rest;
    var init, last := rest[..|rest| - 1], rest[|rest| - 1];
    assert all[..|all| - 1] == first + init && all[|all| - 1] == last;
    if init == [] {
      assert first + init == first && rest == [last];
    } else {
      JoinAppend(first, init);
      assert Join(first) + " " + Join(init) + " " + last == Join(first) + " " + (Join(init) + " " + last);
    }
  }

  /** A chunk's text is its sentences whole and in order, a blank apart. */
  lemma JoinHead(parts: seq<string>)
    requires parts != []
    ensures Join(parts) == if |parts| == 1 then parts[0] else parts[0] + " " + Join(parts[1..])
  {
    if |parts| > 1 {
      assert parts == [parts[0]] + parts[1..];
      JoinAppend([parts[0]], parts[1..]);
    }
  }

  lemma {:induction false} PackedSplit(parts: seq<string>, k: nat)
    requires k <= |parts|
    ensures Packed(parts) == Packed(parts[..k]) + Packed(parts[k..])
  {
    if k == |parts| {
      assert parts[..k] == parts;
    } else {
      var last := |parts| - 1;
      PackedSplit(parts[..last], k);
      assert parts[..last][..k] == parts[..k];
      assert parts[k..][..last - k] == parts[..last][k..];
    }
  }

  /** Where the repeated tail of a chunk begins, scanning back from `i`. */
  function TailFrom(parts: seq<string>, budget: int, i: nat): (t: nat)
    requires i <= |parts|
    ensures t <= i
  {
    if i == 0 then 0
    else if i < |parts| && Packed(parts[i..]) + |parts[i - 1]| > budget then i
    else TailFrom(parts, budget, i - 1)
  }

  function TailStart(parts: seq<string>, budget: int): (t: nat)
    ensures t <= |parts|
  {
    if budget <= 0 then |parts| else TailFrom(parts, budget, |parts|)
  }

  method OverlapTail(parts: seq<string>, budget: int) returns (tail: seq<string>)
    ensures tail == parts[TailStart(parts, budget)..]
  {
    if budget <= 0 {
      return [];
    }
    tail := [];
    var used := 0;
    var i := |parts|;
    while i > 0
      invariant 0 <= i <= |parts|
      invariant tail == parts[i..] && used == Packed(tail)
      invariant TailFrom(parts, budget, i) == TailFrom(parts, budget, |parts|)
    {
      var sentence := parts[i - 1];
      if tail != [] && used + |sentence| > budget {
        break;
      }
      assert [sentence] + parts[i..] == parts[i - 1..];
      PackedSplit([sentence] + tail, 1);
      assert ([sentence] + tail)[..1] == [sentence] && ([sentence] + tail)[1..] == tail;
      tail := [sentence] + tail;
      used := used + |sentence| + 1;
      i := i - 1;
    }
  }

  lemma OneMore(parts: seq<string>, i: nat)
    requires 0 < i <= |parts|
    ensures |Join(parts[i - 1..])| == Packed(parts[i..]) + |parts[i - 1]|
  {
    PackedSplit(parts[i - 1..], 1);
    assert parts[i - 1..][..1] == [parts[i - 1]] && parts[i - 1..][1..] == parts[i..];
    JoinLength(parts[i - 1..]);
  }

  lemma LongerFrom(parts: seq<string>, k: nat, i: nat)
    requires k <= i < |parts|
    ensures |Join(parts[k..])| >= |Join(parts[i..])|
  {
    JoinLength(parts[k..]);
    JoinLength(parts[i..]);
    PackedSplit(parts[k..], i - k);
    assert parts[k..][i - k..] == parts[i..];
  }

  lemma {:induction false} TailFromIsLongest(parts: seq<string>, budget: int, i: nat)
    requires i <= |parts|
    requires i < |parts| - 1 ==> |Join(parts[i..])| <= budget
    requires parts != []
    ensures
      var t := TailFrom(parts, budget, i);
      && (i > 0 || |parts| > t ==> t < |parts|)
      && (t < |parts| - 1 ==> |Join(parts[t..])| <= budget)
      && (forall k :: 0 <= k < t ==> |Join(parts[k..])| > budget)
    decreases i
  {
    if i > 0 {
      OneMore(parts, i);
      if i < |parts| && Packed(parts[i..]) + |parts[i - 1]| > budget {
        forall k | 0 <= k < i ensures |Join(parts[k..])| > budget {
          LongerFrom(parts, k, i - 1);
        }
      } else {
        TailFromIsLongest(parts, budget, i - 1);
      }
    }
  }

  /** With a positive budget the repeated tail is the longest suffix that fits
      it once joined, or else the last sentence alone. */
  lemma OverlapIsLongestThatFits(parts: seq<string>, budget: int)
    requires budget > 0 && parts != []
    ensures
      var t := TailStart(parts, budget);
      && t < |parts|
      && (t < |parts| - 1 ==> |Join(parts[t..])| <= budget)
      && (forall k :: 0 <= k < t ==> |Join(parts[k..])| > budget)
  {
    TailFromIsLongest(parts, budget, |parts|);
  }

  /** The tail is everything exactly when a positive budget has room for it
      all, or there is but one sentence to repeat. */
  lemma TailIsAllExactly(parts: seq<string>, budget: int)
    requires parts != []
    ensures TailStart(parts, budget) == 0 <==> budget > 0 && (|parts| == 1 || |Join(parts)| <= budget)
  {
    if budget > 0 {
      OverlapIsLongestThatFits(parts, budget);
      assert parts[0..] == parts;
    }
  }

  /** A chunk is the sentences `lo..hi` of the document. */
  datatype Span = Span(lo: nat, hi: nat)

  /** Sentence `n` would push the chunk `lo..n` past the target. */
  predicate NoRoom(s: seq<string>, target: int, lo: nat, n: nat)
    requires lo <= n < |s|
  {
    Packed(s[lo..n]) + |s[n]| + 1 > target
  }

  /** The chunks still to come when the open one holds sentences `lo..n`. */
  function Spans(s: seq<string>, target: int, budget: int, lo: nat, n: nat): seq<Span>
    requires lo <= n <= |s|
    decreases |s| - n
  {
    if n == |s| then if lo < n then [Span(lo, n)] else []
    else if lo < n && NoRoom(s, target, lo, n) then
      [Span(lo, n)] + Spans(s, target, budget, lo + TailStart(s[lo..n], budget), n + 1)
    else Spans(s, target, budget, lo, n + 1)
  }

  function Slice(s: seq<string>, x: Span): seq<string> {
    if x.lo <= x.hi <= |s| then s[x.lo..x.hi] else []
  }

  function Slices(s: seq<string>, spans: seq<Span>): seq<seq<string>> {
    seq(|spans|, i requires 0 <= i < |spans| => Slice(s, spans[i]))
  }

  datatype Chunk = Chunk(ordinal: nat, content: string, contentNormalized: string)

  lemma SlicesCons(s: seq<string>, x: Span, rest: seq<Span>)
    ensures Slices(s, [x] + rest) == [Slice(s, x)] + Slices(s, rest)
  {
  }

  /** The sentences of the chunks still to come. */
  function Packs(s: seq<string>, target: int, budget: int, lo: nat, n: nat): seq<seq<string>>
    requires lo <= n <= |s|
  {
    Slices(s, Spans(s, target, budget, lo, n))
  }

  /** Packing has reached sentence `n`: what is flushed, and what the open
      chunk `current`, begun at `lo`, will still give, is what the whole text gives. */
  ghost predicate Packing(
    s: seq<string>, target: int, budget: int, lo: nat, n: nat, done: seq<seq<string>>, current: seq<string>,
    length: int)
  {
    && lo <= n <= |s| && current == s[lo..n] && length == Packed(current)
    && done + Packs(s, target, budget, lo, n) == Packs(s, target, budget, 0, 0)
  }

  predicate IsFull(s: seq<string>, target: int, n: nat, current: seq<string>, length: int)
    requires n < |s|
  {
    current != [] && length + |s[n]| + 1 > target
  }

  lemma PacksFlush(s: seq<string>, target: int, budget: int, lo: nat, n: nat)
    requires lo < n < |s| && NoRoom(s, target, lo, n)
    ensures Packs(s, target, budget, lo, n)
         == [s[lo..n]] + Packs(s, target, budget, lo + TailStart(s[lo..n], budget), n + 1)
  {
    SlicesCons(s, Span(lo, n), Spans(s, target, budget, lo + TailStart(s[lo..n], budget), n + 1));
  }

  lemma Flushed(
    s: seq<string>, target: int, budget: int, lo: nat, n: nat, done: seq<seq<string>>, current: seq<string>,
    length: int)
    requires Packing(s, target, budget, lo, n, done, current, length)
    requires n < |s| && IsFull(s, target, n, current, length)
    ensures
      var kept := current[TailStart(current, budget)..];
      Packing(s, target, budget, lo + TailStart(current, budget), n + 1, done + [current], kept + [s[n]],
              Packed(kept) + |s[n]| + 1)
  {
    var lo' := lo + TailStart(current, budget);
    PacksFlush(s, target, budget, lo, n);
    assert done + ([current] + Packs(s, target, budget, lo', n + 1))
        == done + [current] + Packs(s, target, budget, lo', n + 1);
    assert current[TailStart(current, budget)..] == s[lo'..n];
    PackedNext(s, lo', n);
  }

  lemma Carried(
    s: seq<string>, target: int, budget: int, lo: nat, n: nat, done: seq<seq<string>>, current: seq<string>,
    length: int)
    requires Packing(s, target, budget, lo, n, done, current, length)
    requires n < |s| && !IsFull(s, target, n, current, length)
    ensures Packing(s, target, budget, lo, n + 1, done, current + [s[n]], length + |s[n]| + 1)
  {
    PackedNext(s, lo, n);
  }

  lemma Ended(
    s: seq<string>, target: int, budget: int, lo: nat, done: seq<seq<string>>, current: seq<string>, length: int)
    requires Packing(s, target, budget, lo, |s|, done, current, length)
    ensures done + (if current != [] then [current] else []) == Packs(s, target, budget, 0, 0)
  {
  }

  method PackSentences(s: seq<string>, target: int, budget: int) returns (chunks: seq<seq<string>>)
    ensures chunks == Slices(s, Spans(s, target, budget, 0, 0))
  {
    chunks := [];
    var current: seq<string> := [];
    var length := 0;
    ghost var lo: nat := 0;
    for n := 0 to |s|
      invariant Packing(s, target, budget, lo, n, chunks, current, length)
    {
      if current != [] && length + |s[n]| + 1 > target {
        Flushed(s, target, budget, lo, n, chunks, current, length);
        chunks := chunks + [current];
        lo := lo + TailStart(current, budget);
        current := OverlapTail(current, budget);
        length := Packed(current);
      } else {
        Carried(s, target, budget, lo, n, chunks, current, length);
      }
      current := current + [s[n]];
      length := length + |s[n]| + 1;
    }
    Ended(s, target, budget, lo, chunks, current, length);
    if current != [] {
      chunks := chunks + [current];
    }
  }

  method ChunkText(text: string, abc: Alphabet, target: int, budget: int, normalize: string -> string)
    returns (chunks: seq<Chunk>)
    ensures
      var s := SplitSentences(text, abc);
      var spans := Spans(s, target, budget, 0, 0);
      && |chunks| == |spans|
      && forall i :: 0 <= i < |chunks| ==>
           && chunks[i].ordinal == i
           && chunks[i].content == Join(Slice(s, spans[i]))
           && chunks[i].contentNormalized == normalize(chunks[i].content)
  {
    var sentences := SplitSentences(text, abc);
    if sentences == [] {
      return [];
    }
    var parts := PackSentences(sentences, target, budget);
    chunks := seq(|parts|, i requires 0 <= i < |parts| => Chunk(i, Join(parts[i]), normalize(Join(parts[i]))));
  }

  // ------------------------------------------------------------ nothing lost, nothing split

  /** Where the new sentences of chunk `i` begin. */
  function NewFrom(spans: seq<Span>, first: nat, i: nat): nat
    requires i < |spans|
  {
    if i == 0 then first else spans[i - 1].hi
  }

  /** `next` starts with the tail of `prev` and goes on past it. */
  predicate Follows(s: seq<string>, budget: int, prev: Span, next: Span)
    requires prev.lo < prev.hi <= |s|
  {
    prev.hi < next.hi && next.lo == prev.lo + TailStart(s[prev.lo..prev.hi], budget)
  }

  /** How chunks follow one another: each starts with the tail of the one
      before it and goes on with sentences no earlier chunk held. */
  predicate Chained(s: seq<string>, budget: int, spans: seq<Span>) {
    spans != [] ==>
      && spans[0].lo < spans[0].hi <= |s|
      && (|spans| > 1 ==> Follows(s, budget, spans[0], spans[1]))
      && Chained(s, budget, spans[1..])
  }

  /** A chunk `x` whose new sentences begin at `first` is within the target if
      it took two of them, and unless it is the last, has no room for the next. */
  predicate Filled(s: seq<string>, target: int, first: nat, x: Span, last: bool)
    requires x.lo < x.hi <= |s|
  {
    && (x.hi - first >= 2 ==> Packed(s[x.lo..x.hi]) <= target)
    && (!last ==> x.hi < |s| && NoRoom(s, target, x.lo, x.hi))
  }

  predicate WellFilled(s: seq<string>, target: int, budget: int, first: nat, spans: seq<Span>)
    requires Chained(s, budget, spans)
    decreases |spans|
  {
    spans != [] ==>
      && Filled(s, target, first, spans[0], |spans| == 1)
      && WellFilled(s, target, budget, spans[0].hi, spans[1..])
  }

  lemma ChainedCons(s: seq<string>, budget: int, head: Span, rest: seq<Span>)
    requires head.lo < head.hi <= |s| && Chained(s, budget, rest)
    requires rest != [] ==> Follows(s, budget, head, rest[0])
    ensures Chained(s, budget, [head] + rest)
  {
    assert ([head] + rest)[1..] == rest;
  }

  /** The spans from sentence `n` on, the first begun at `lo`, are a chain to
      the end of the text. */
  predicate ChainsOn(s: seq<string>, budget: int, lo: nat, n: nat, spans: seq<Span>) {
    && Chained(s, budget, spans)
    && (spans == [] <==> s == [])
    && (spans != [] ==> spans[0].lo == lo && spans[0].hi >= n && spans[|spans| - 1].hi == |s|)
  }

  lemma ChainsOnCons(s: seq<string>, budget: int, lo: nat, n: nat, rest: seq<Span>)
    requires lo < n < |s| && ChainsOn(s, budget, lo + TailStart(s[lo..n], budget), n + 1, rest)
    ensures ChainsOn(s, budget, lo, n, [Span(lo, n)] + rest)
  {
    ChainedCons(s, budget, Span(lo, n), rest);
    var spans := [Span(lo, n)] + rest;
    assert spans[|spans| - 1] == rest[|rest| - 1];
  }

  lemma {:induction false} SpansAreChained(s: seq<string>, target: int, budget: int, lo: nat, n: nat)
    requires lo <= n <= |s| && (lo == n ==> n == 0)
    ensures ChainsOn(s, budget, lo, n, Spans(s, target, budget, lo, n))
    decreases |s| - n
  {
    if n == |s| {
    } else if lo < n && NoRoom(s, target, lo, n) {
      var lo' := lo + TailStart(s[lo..n], budget);
      SpansAreChained(s, target, budget, lo', n + 1);
      ChainsOnCons(s, budget, lo, n, Spans(s, target, budget, lo', n + 1));
    } else {
      SpansAreChained(s, target, budget, lo, n + 1);
    }
  }

  lemma FilledCons(s: seq<string>, target: int, budget: int, first: nat, head: Span, rest: seq<Span>)
    requires Chained(s, budget, rest) && WellFilled(s, target, budget, head.hi, rest)
    requires head.lo < head.hi <= |s| && Filled(s, target, first, head, rest == [])
    requires rest != [] ==> Follows(s, budget, head, rest[0])
    ensures Chained(s, budget, [head] + rest) && WellFilled(s, target, budget, first, [head] + rest)
  {
    assert ([head] + rest)[1..] == rest;
  }

  lemma {:induction false} SpansAreFilled(s: seq<string>, target: int, budget: int, lo: nat, first: nat, n: nat)
    requires lo <= first <= n <= |s| && (lo == n ==> n == 0) && (first == n ==> n == 0)
    requires n - first >= 2 ==> Packed(s[lo..n]) <= target
    ensures
      var spans := Spans(s, target, budget, lo, n);
      Chained(s, budget, spans) && WellFilled(s, target, budget, first, spans)
    decreases |s| - n
  {
    if n == |s| {
      if lo < n {
        FilledCons(s, target, budget, first, Span(lo, n), []);
      }
    } else if lo < n && NoRoom(s, target, lo, n) {
      var lo' := lo + TailStart(s[lo..n], budget);
      SpansAreFilled(s, target, budget, lo', n, n + 1);
      SpansAreChained(s, target, budget, lo', n + 1);
      FilledCons(s, target, budget, first, Span(lo, n), Spans(s, target, budget, lo', n + 1));
    } else {
      PackedNext(s, lo, n);
      SpansAreFilled(s, target, budget, lo, first, n + 1);
    }
  }

  /** The ends never go back, from `first` on. */
  predicate Ascending(spans: seq<Span>, first: nat, limit: nat) {
    spans != [] ==> first <= spans[0].hi <= limit && Ascending(spans[1..], spans[0].hi, limit)
  }

  lemma {:induction false} ChainedAscends(s: seq<string>, budget: int, spans: seq<Span>, first: nat)
    requires Chained(s, budget, spans) && (spans != [] ==> first <= spans[0].hi)
    ensures Ascending(spans, first, |s|)
  {
    if spans != [] {
      ChainedAscends(s, budget, spans[1..], spans[0].hi);
    }
  }

  /** The new sentences of each chunk, in order. */
  function NewParts(s: seq<string>, spans: seq<Span>, first: nat): seq<seq<string>>
    requires Ascending(spans, first, |s|)
  {
    if spans == [] then [] else [s[first..spans[0].hi]] + NewParts(s, spans[1..], spans[0].hi)
  }

  lemma {:induction false} NewPartsReassemble(s: seq<string>, spans: seq<Span>, first: nat)
    requires Ascending(spans, first, |s|)
    requires if spans == [] then first == |s| else spans[|spans| - 1].hi == |s|
    ensures Flatten(NewParts(s, spans, first)) == s[first..]
    decreases |spans|
  {
    if spans != [] {
      NewPartsReassemble(s, spans[1..], spans[0].hi);
      assert s[first..] == s[first..spans[0].hi] + s[spans[0].hi..];
    }
  }

  /** Chunking loses, reorders and splits nothing: the chunks, each without
      what it repeats, are the sentence list, and there are never more chunks
      than sentences. */
  lemma ChunksReassemble(s: seq<string>, target: int, budget: int)
    ensures
      var spans := Spans(s, target, budget, 0, 0);
      && Ascending(spans, 0, |s|) && Flatten(NewParts(s, spans, 0)) == s
      && |spans| <= |s|
  {
    var spans := Spans(s, target, budget, 0, 0);
    SpansAreChained(s, target, budget, 0, 0);
    ChainedAscends(s, budget, spans, 0);
    NewPartsReassemble(s, spans, 0);
    assert s[0..] == s;
    ChunkCount(s, budget, spans, 0);
  }

  lemma {:induction false} ChunkCount(s: seq<string>, budget: int, spans: seq<Span>, first: nat)
    requires Chained(s, budget, spans) && (spans != [] ==> first < spans[0].hi) && first <= |s|
    ensures first + |spans| <= |s|
  {
    if spans != [] {
      ChunkCount(s, budget, spans[1..], spans[0].hi);
    }
  }

  /** What a chunk repeats is a tail of the chunk before it: chunk `i` runs from
      there, over the end of chunk `i - 1`, to at least one sentence more. And
      it is filled as the greedy rule says. */
  lemma ChunkAt(s: seq<string>, target: int, budget: int, i: nat)
    requires i < |Spans(s, target, budget, 0, 0)|
    ensures
      var spans := Spans(s, target, budget, 0, 0);
      var x := spans[i];
      && x.lo < x.hi <= |s| && x.lo <= NewFrom(spans, 0, i) < x.hi
      && Filled(s, target, NewFrom(spans, 0, i), x, i == |spans| - 1)
      && (if i == 0 then x.lo == 0
          else spans[i - 1].lo < spans[i - 1].hi <= |s| && Follows(s, budget, spans[i - 1], x))
  {
    SpansAreFilled(s, target, budget, 0, 0, 0);
    SpansAreChained(s, target, budget, 0, 0);
    SpanAt(s, target, budget, 0, Spans(s, target, budget, 0, 0), i);
  }

  lemma {:induction false} SpanAt(s: seq<string>, target: int, budget: int, first: nat, spans: seq<Span>, i: nat)
    requires i < |spans| && Chained(s, budget, spans) && WellFilled(s, target, budget, first, spans)
    requires spans[0].lo <= first < spans[0].hi
    ensures
      var x := spans[i];
      && x.lo < x.hi <= |s| && x.lo <= NewFrom(spans, first, i) < x.hi
      && Filled(s, target, NewFrom(spans, first, i), x, i == |spans| - 1)
      && (i > 0 ==> spans[i - 1].lo < spans[i - 1].hi <= |s| && Follows(s, budget, spans[i - 1], x))
    decreases |spans|
  {
    if i > 0 {
      SpanAt(s, target, budget, spans[0].hi, spans[1..], i - 1);
    }
  }

  /** A chunk repeats the whole of the chunk before it exactly when an overlap
      is configured and that chunk is one sentence, or fits the budget. */
  lemma RepeatsWholeChunkExactly(s: seq<string>, target: int, budget: int, i: nat)
    requires 0 < i < |Spans(s, target, budget, 0, 0)|
    ensures
      var prev, x := Spans(s, target, budget, 0, 0)[i - 1], Spans(s, target, budget, 0, 0)[i];
      && prev.lo < prev.hi <= |s|
      && (x.lo == prev.lo <==> budget > 0 && (prev.hi - prev.lo == 1 || |Join(s[prev.lo..prev.hi])| <= budget))
  {
    ChunkAt(s, target, budget, i);
    var prev := Spans(s, target, budget, 0, 0)[i - 1];
    TailIsAllExactly(s[prev.lo..prev.hi], budget);
  }

  /** A chunk of two or more new sentences is, joined, shorter than the target;
      and no chunk but the last had room for one more sentence. */
  lemma ChunksAreFull(s: seq<string>, target: int, budget: int, i: nat)
    requires i < |Spans(s, target, budget, 0, 0)|
    ensures
      var spans := Spans(s, target, budget, 0, 0);
      var x := spans[i];
      && x.lo < x.hi <= |s|
      && (x.hi - NewFrom(spans, 0, i) >= 2 ==> |Join(s[x.lo..x.hi])| < target)
      && (i < |spans| - 1 ==> x.hi < |s| && |Join(s[x.lo..x.hi + 1])| >= target)
  {
    ChunkAt(s, target, budget, i);
    var x := Spans(s, target, budget, 0, 0)[i];
    JoinLength(s[x.lo..x.hi]);
    if x.hi < |s| {
      JoinLength(s[x.lo..x.hi + 1]);
      assert s[x.lo..x.hi + 1][..x.hi - x.lo] == s[x.lo..x.hi];
    }
  }

  /** A sentence longer than the target is the only new sentence of its chunk;
      it is the whole chunk, as documented, exactly when the chunk is the first
      or no overlap is configured. */
  lemma OversizedSentence(s: seq<string>, target: int, budget: int, i: nat, k: nat)
    requires i < |Spans(s, target, budget, 0, 0)|
    requires NewFrom(Spans(s, target, budget, 0, 0), 0, i) <= k < Spans(s, target, budget, 0, 0)[i].hi <= |s|
    requires |s[k]| > target
    ensures
      var spans := Spans(s, target, budget, 0, 0);
      && spans[i].hi == k + 1 && NewFrom(spans, 0, i) == k
      && (spans[i] == Span(k, k + 1) <==> i == 0 || budget <= 0)
  {
    ChunkAt(s, target, budget, i);
    var spans := Spans(s, target, budget, 0, 0);
    var x := spans[i];
    PackedHolds(s[x.lo..x.hi], k - x.lo);
    if i > 0 {
      ChunkAt(s, target, budget, i - 1);
      if budget > 0 {
        OverlapIsLongestThatFits(s[spans[i - 1].lo..spans[i - 1].hi], budget);
      }
    }
  }

  lemma PackedHolds(parts: seq<string>, k: nat)
    requires k < |parts|
    ensures Packed(parts) > |parts[k]|
  {
    PackedSplit(parts, k);
    PackedSplit(parts[k..], 1);
    assert parts[k..][..1] == [parts[k]];
    assert [parts[k]][..0] == [];
  }

  /** From text to chunks, only whitespace is dropped. */
  lemma ChunksKeepTheText(text: string, abc: Alphabet, target: int, budget: int)
    ensures
      var s := SplitSentences(text, abc);
      var spans := Spans(s, target, budget, 0, 0);
      && Ascending(spans, 0, |s|)
      && Ink(Flatten(Flatten(NewParts(s, spans, 0))), abc.blanks) == Ink(text, abc.blanks)
  {
    SplittingKeepsInk(text, abc);
    ChunksReassemble(SplitSentences(text, abc), target, budget);
  }
}
