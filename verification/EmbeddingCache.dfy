/** A content-addressed cache in front of an embedder. Paths are taken to be as
    distinct as the text they hash. */
module EmbeddingCache {
  import opened Sequences
  import Numerals

  type Vector = seq<real>

  /** What a cache file can hold. The first two are not read as a miss. Reading
      `Refused` raises an error of another kind than those that are caught:
      bytes that are not UTF-8, or a document the JSON reader gives up on for
      another reason than its syntax, such as a number of thousands of digits
      or nesting too deep for its stack. `Unsized` has a vector field that has
      no length. */
  datatype File = Refused | Unsized | NotJson | NoVector | Entry(vector: Vector)

  datatype Read = Miss | Hit(vector: Vector) | Raises

  type Files = map<string, File>

  /** One cache serves one model at one width. */
  datatype Shape = Shape(model: string, dimensions: nat)

  datatype Embedder = Embedder(model: string, vector: string -> Vector, tokens: seq<string> -> nat)

  datatype Embedding = Embedding(vectors: seq<Vector>, model: string, inputTokens: nat)

  datatype Unreadable = Unreadable

  // ------------------------------------------------------------ keys

  const SEPARATOR := '\0'

  /** The text that is hashed to a path. */
  function Key(shape: Shape, text: string): string {
    shape.model + [SEPARATOR] + Numerals.Digits(shape.dimensions) + [SEPARATOR] + text
  }

  function UpToSeparator(s: string): string {
    if s == [] || s[0] == SEPARATOR then [] else [s[0]] + UpToSeparator(s[1..])
  }

  lemma {:induction false} UpToSeparatorIs(a: string, rest: string)
    requires SEPARATOR !in a
    ensures UpToSeparator(a + [SEPARATOR] + rest) == a
  {
    var whole := a + [SEPARATOR] + rest;
    if a != [] {
      assert whole[0] == a[0] && whole[1..] == a[1..] + [SEPARATOR] + rest;
      UpToSeparatorIs(a[1..], rest);
    }
  }

  lemma CutAtFirst(a: string, s: string, b: string, t: string)
    requires SEPARATOR !in a && SEPARATOR !in b
    requires a + [SEPARATOR] + s == b + [SEPARATOR] + t
    ensures a == b && s == t
  {
    UpToSeparatorIs(a, s);
    UpToSeparatorIs(b, t);
    assert s == (a + [SEPARATOR] + s)[|a| + 1..];
    assert t == (b + [SEPARATOR] + t)[|b| + 1..];
  }

  /** Two texts share a path only when they are the same text for the same
      model at the same width, as long as no model is named with a NUL. */
  lemma KeysAreDistinct(x: Shape, s: string, y: Shape, t: string)
    requires SEPARATOR !in x.model && SEPARATOR !in y.model
    requires Key(x, s) == Key(y, t)
    ensures x == y && s == t
  {
    var dx, dy := Numerals.Digits(x.dimensions), Numerals.Digits(y.dimensions);
    assert Key(x, s) == x.model + [SEPARATOR] + (dx + [SEPARATOR] + s);
    assert Key(y, t) == y.model + [SEPARATOR] + (dy + [SEPARATOR] + t);
    assert SEPARATOR !in dx && SEPARATOR !in dy by {
      assert !Numerals.IsDigit(SEPARATOR);
    }
    CutAtFirst(x.model, dx + [SEPARATOR] + s, y.model, dy + [SEPARATOR] + t);
    CutAtFirst(dx, s, dy, t);
    Numerals.DigitsValue(x.dimensions);
    Numerals.DigitsValue(y.dimensions);
  }

  // ------------------------------------------------------------ reading and writing

  function ReadFile(files: Files, shape: Shape, text: string): Read {
    if Key(shape, text) !in files then Miss
    else match files[Key(shape, text)]
      case Refused => Raises
      case Unsized => Raises
      case NotJson => Miss
      case NoVector => Miss
      case Entry(vector) => if |vector| == shape.dimensions then Hit(vector) else Miss
  }

  function WriteAll(files: Files, shape: Shape, texts: seq<string>, embedder: Embedder): Files {
    if texts == [] then files
    else
      var last := texts[|texts| - 1];
      WriteAll(files, shape, texts[..|texts| - 1], embedder)[Key(shape, last) := Entry(embedder.vector(last))]
  }

  /** The distinct texts that are not cached, in order. */
  function Uncached(files: Files, shape: Shape, distinct: seq<string>): seq<string> {
    if distinct == [] then []
    else
      var last := distinct[|distinct| - 1];
      Uncached(files, shape, distinct[..|distinct| - 1])
      + if ReadFile(files, shape, last) == Miss then [last] else []
  }

  function VectorFor(files: Files, shape: Shape, embedder: Embedder, text: string): Vector {
    match ReadFile(files, shape, text)
    case Hit(vector) => vector
    case _ => embedder.vector(text)
  }

  function Vectors(files: Files, shape: Shape, embedder: Embedder, texts: seq<string>): seq<Vector> {
    seq(|texts|, i requires 0 <= i < |texts| => VectorFor(files, shape, embedder, texts[i]))
  }

  /** What the store knows, and what the embedder says, of some texts. */
  function Hits(files: Files, shape: Shape, texts: seq<string>): map<string, Vector> {
    map t | t in texts && ReadFile(files, shape, t).Hit? :: ReadFile(files, shape, t).vector
  }

  function Fresh(embedder: Embedder, texts: seq<string>): map<string, Vector> {
    map t | t in texts :: embedder.vector(t)
  }

  lemma HitsStep(files: Files, shape: Shape, texts: seq<string>, i: nat)
    requires i < |texts|
    ensures
      var before, next := Hits(files, shape, texts[..i]), ReadFile(files, shape, texts[i]);
      Hits(files, shape, texts[..i + 1]) == if next.Hit? then before[texts[i] := next.vector] else before
  {
    assert texts[..i + 1] == texts[..i] + [texts[i]];
    assert texts[i] in texts[..i + 1];
    assert forall t :: t in texts[..i + 1] <==> t in texts[..i] || t == texts[i];
  }

  lemma FreshStep(cached: map<string, Vector>, embedder: Embedder, texts: seq<string>, i: nat)
    requires i < |texts|
    ensures cached + Fresh(embedder, texts[..i + 1])
         == (cached + Fresh(embedder, texts[..i]))[texts[i] := embedder.vector(texts[i])]
  {
    assert texts[..i + 1] == texts[..i] + [texts[i]];
    assert forall t :: t in texts[..i + 1] <==> t in texts[..i] || t == texts[i];
  }

  predicate AllReadable(files: Files, shape: Shape, texts: seq<string>) {
    forall t :: t in texts ==> ReadFile(files, shape, t) != Raises
  }

  /** Answer, texts sent to the embedder, and files afterwards. */
  datatype Embedded = Embedded(answer: Result<Embedding, Unreadable>, sent: seq<string>, files: Files)

  function EmbedOn(files: Files, shape: Shape, embedder: Embedder, texts: seq<string>): Embedded {
    var sent := Uncached(files, shape, FirstOccurrences(texts, {}));
    if !AllReadable(files, shape, texts) then Embedded(Err(Unreadable), [], files)
    else if sent == [] then
      Embedded(Ok(Embedding(Vectors(files, shape, embedder, texts), shape.model, 0)), [], files)
    else
      Embedded(Ok(Embedding(Vectors(files, shape, embedder, texts), embedder.model, embedder.tokens(sent))), sent,
               WriteAll(files, shape, sent, embedder))
  }

  class Disk {
    var files: Files

    constructor ()
      ensures files == map[]
    {
      files := map[];
    }
  }

  class EmbeddingCache {
    const shape: Shape
    const disk: Disk

    constructor (shape: Shape, disk: Disk)
      ensures this.shape == shape && this.disk == disk
    {
      this.shape, this.disk := shape, disk;
    }

    /** What the store holds of the distinct texts, and which are to be sent. */
    method Look(distinct: seq<string>)
      returns (cached: map<string, Vector>, missing: seq<string>, damaged: bool)
      ensures damaged <==> !AllReadable(disk.files, shape, distinct)
      ensures !damaged ==>
        && cached == Hits(disk.files, shape, distinct)
        && missing == Uncached(disk.files, shape, distinct)
    {
      cached, missing, damaged := map[], [], false;
      for i := 0 to |distinct|
        invariant AllReadable(disk.files, shape, distinct[..i])
        invariant cached == Hits(disk.files, shape, distinct[..i])
        invariant missing == Uncached(disk.files, shape, distinct[..i])
      {
        assert distinct[..i + 1][..i] == distinct[..i];
        HitsStep(disk.files, shape, distinct, i);
        match ReadFile(disk.files, shape, distinct[i]) {
          case Raises =>
            assert distinct[i] in distinct;
            damaged := true;
            return;
          case Miss => missing := missing + [distinct[i]];
          case Hit(vector) => cached := cached[distinct[i] := vector];
        }
      }
      assert distinct[..|distinct|] == distinct;
    }

    /** Keep the fresh vector of every missing text, in memory and on disk. */
    method Keep(embedder: Embedder, cached: map<string, Vector>, missing: seq<string>)
      returns (kept: map<string, Vector>)
      modifies disk
      ensures disk.files == WriteAll(old(disk.files), shape, missing, embedder)
      ensures kept == cached + Fresh(embedder, missing)
    {
      kept := cached;
      for i := 0 to |missing|
        invariant disk.files == WriteAll(old(disk.files), shape, missing[..i], embedder)
        invariant kept == cached + Fresh(embedder, missing[..i])
      {
        assert missing[..i + 1][..i] == missing[..i];
        FreshStep(cached, embedder, missing, i);
        kept := kept[missing[i] := embedder.vector(missing[i])];
        disk.files := disk.files[Key(shape, missing[i]) := Entry(embedder.vector(missing[i]))];
      }
      assert missing[..|missing|] == missing;
    }

    method Embed(embedder: Embedder, texts: seq<string>)
      returns (answer: Result<Embedding, Unreadable>, sent: seq<string>)
      modifies disk
      ensures Embedded(answer, sent, disk.files) == EmbedOn(old(disk.files), shape, embedder, texts)
    {
      var cached, missing, damaged := Look(FirstOccurrences(texts, {}));
      DistinctAreTexts(disk.files, shape, texts);
      if damaged {
        return Err(Unreadable), [];
      }
      sent := missing;
      HitOrSent(disk.files, shape, embedder, texts);
      var model, billed := shape.model, 0;
      if missing != [] {
        model, billed := embedder.model, embedder.tokens(missing);
        cached := Keep(embedder, cached, missing);
      }
      var vectors := seq(|texts|, i requires 0 <= i < |texts| => cached[texts[i]]);
      assert vectors == Vectors(old(disk.files), shape, embedder, texts);
      answer := Ok(Embedding(vectors, model, billed));
    }
  }

  lemma DistinctAreTexts(files: Files, shape: Shape, texts: seq<string>)
    ensures AllReadable(files, shape, FirstOccurrences(texts, {})) <==> AllReadable(files, shape, texts)
  {
    var distinct := FirstOccurrences(texts, {});
    assert forall t :: t in distinct <==> t in texts;
  }

  /** Every text is either in the store or sent, so the two together answer it. */
  lemma HitOrSent(files: Files, shape: Shape, embedder: Embedder, texts: seq<string>)
    requires AllReadable(files, shape, texts)
    ensures
      var distinct := FirstOccurrences(texts, {});
      var sent := Uncached(files, shape, distinct);
      var known := Hits(files, shape, distinct) + Fresh(embedder, sent);
      && (forall t :: t in texts ==> t in known && known[t] == VectorFor(files, shape, embedder, t))
      && (sent == [] ==> known == Hits(files, shape, distinct))
  {
    var distinct := FirstOccurrences(texts, {});
    UncachedMisses(files, shape, distinct);
    forall t | t in texts && ReadFile(files, shape, t) == Miss ensures t in Uncached(files, shape, distinct) {
      MissIsUncached(files, shape, distinct, t);
    }
  }

  lemma {:induction false} UncachedMisses(files: Files, shape: Shape, distinct: seq<string>)
    ensures forall t :: t in Uncached(files, shape, distinct) ==> t in distinct && ReadFile(files, shape, t) == Miss
  {
    if distinct != [] {
      UncachedMisses(files, shape, distinct[..|distinct| - 1]);
    }
  }

  lemma {:induction false} MissIsUncached(files: Files, shape: Shape, distinct: seq<string>, t: string)
    requires t in distinct
    ensures ReadFile(files, shape, t) == Miss ==> t in Uncached(files, shape, distinct)
  {
    if t != distinct[|distinct| - 1] {
      assert t in distinct[..|distinct| - 1];
      MissIsUncached(files, shape, distinct[..|distinct| - 1], t);
    }
  }

  // ------------------------------------------------------------ transparency

  /** Every readable entry is what the embedder would answer; the rest may be
      anything. */
  ghost predicate Correct(files: Files, shape: Shape, embedder: Embedder) {
    forall t: string :: ReadFile(files, shape, t).Hit? ==> ReadFile(files, shape, t).vector == embedder.vector(t)
  }

  lemma {:induction false} WriteAllReads(
    files: Files, shape: Shape, texts: seq<string>, embedder: Embedder, t: string)
    requires SEPARATOR !in shape.model
    ensures ReadFile(WriteAll(files, shape, texts, embedder), shape, t)
         == if t !in texts then ReadFile(files, shape, t)
            else if |embedder.vector(t)| == shape.dimensions then Hit(embedder.vector(t)) else Miss
  {
    if texts != [] {
      var init, last := texts[..|texts| - 1], texts[|texts| - 1];
      WriteAllReads(files, shape, init, embedder, t);
      assert t in texts <==> t in init || t == last;
      if Key(shape, last) == Key(shape, t) {
        KeysAreDistinct(shape, last, shape, t);
      }
    }
  }

  /** The cache is transparent: over a correct store the answer is the
      embedder's own vector for each text, in order, duplicates included, and
      the store stays correct. */
  lemma CacheIsTransparent(files: Files, shape: Shape, embedder: Embedder, texts: seq<string>)
    requires SEPARATOR !in shape.model && Correct(files, shape, embedder)
    ensures
      var r := EmbedOn(files, shape, embedder, texts);
      && Correct(r.files, shape, embedder)
      && (r.answer.Ok? ==>
            && |r.answer.value.vectors| == |texts|
            && forall i :: 0 <= i < |texts| ==> r.answer.value.vectors[i] == embedder.vector(texts[i]))
  {
    var r := EmbedOn(files, shape, embedder, texts);
    forall t: string | ReadFile(r.files, shape, t).Hit?
      ensures ReadFile(r.files, shape, t).vector == embedder.vector(t)
    {
      WriteAllReads(files, shape, r.sent, embedder, t);
    }
  }

  /** What is paid for: each text that is not cached once, in order of first
      appearance, and no cached text. */
  lemma SendsEachUncachedTextOnce(files: Files, shape: Shape, embedder: Embedder, texts: seq<string>)
    ensures
      var r := EmbedOn(files, shape, embedder, texts);
      && (r.answer.Ok? ==> forall t :: t in r.sent <==> t in texts && ReadFile(files, shape, t) == Miss)
      && Distinct(r.sent)
      && (r.sent == [] && r.answer.Ok? ==> r.answer.value.inputTokens == 0)
  {
    var distinct := FirstOccurrences(texts, {});
    UncachedMisses(files, shape, distinct);
    UncachedDistinct(files, shape, distinct);
    forall t | t in texts && ReadFile(files, shape, t) == Miss ensures t in Uncached(files, shape, distinct) {
      assert t in distinct;
      MissIsUncached(files, shape, distinct, t);
    }
  }

  predicate Distinct(s: seq<string>) {
    forall i, j :: 0 <= i < j < |s| ==> s[i] != s[j]
  }

  lemma DistinctAppend(s: seq<string>, x: string)
    requires Distinct(s) && x !in s
    ensures Distinct(s + [x])
  {
  }

  lemma {:induction false} UncachedDistinct(files: Files, shape: Shape, distinct: seq<string>)
    requires Distinct(distinct)
    ensures Distinct(Uncached(files, shape, distinct))
  {
    if distinct != [] {
      var init, last := distinct[..|distinct| - 1], distinct[|distinct| - 1];
      UncachedDistinct(files, shape, init);
      UncachedMisses(files, shape, init);
      assert forall i :: 0 <= i < |init| ==> init[i] == distinct[i] && init[i] != last;
      DistinctAppend(Uncached(files, shape, init), last);
    }
  }

  /** An immediate repeat sends nothing and bills nothing exactly when the
      embedder answered every text it was sent at the cache's width. */
  lemma RepeatIsFreeExactlyAtWidth(files: Files, shape: Shape, embedder: Embedder, texts: seq<string>)
    requires SEPARATOR !in shape.model && EmbedOn(files, shape, embedder, texts).answer.Ok?
    ensures
      var first := EmbedOn(files, shape, embedder, texts);
      var again := EmbedOn(first.files, shape, embedder, texts);
      && again.answer.Ok?
      && (again.sent == [] <==> forall t :: t in first.sent ==> |embedder.vector(t)| == shape.dimensions)
      && (again.sent == [] ==> again.answer.value.inputTokens == 0 && again.files == first.files)
  {
    var first := EmbedOn(files, shape, embedder, texts);
    var again := EmbedOn(first.files, shape, embedder, texts);
    SendsEachUncachedTextOnce(files, shape, embedder, texts);
    SendsEachUncachedTextOnce(first.files, shape, embedder, texts);
    forall t | t in texts
      ensures ReadFile(first.files, shape, t) != Raises
      ensures ReadFile(first.files, shape, t) == Miss
         <==> t in first.sent && |embedder.vector(t)| != shape.dimensions
    {
      WriteAllReads(files, shape, first.sent, embedder, t);
    }
    if again.sent != [] {
      assert again.sent[0] in again.sent;
    }
  }

  /** A cache of another model or width on the same disk reads what it read before. */
  lemma OtherShapesAreUntouched(
    files: Files, shape: Shape, embedder: Embedder, texts: seq<string>, other: Shape, t: string)
    requires SEPARATOR !in shape.model && SEPARATOR !in other.model && other != shape
    ensures ReadFile(EmbedOn(files, shape, embedder, texts).files, other, t) == ReadFile(files, other, t)
  {
    WriteAllElsewhere(files, shape, EmbedOn(files, shape, embedder, texts).sent, embedder, other, t);
  }

  lemma {:induction false} WriteAllElsewhere(
    files: Files, shape: Shape, texts: seq<string>, embedder: Embedder, other: Shape, t: string)
    requires SEPARATOR !in shape.model && SEPARATOR !in other.model && other != shape
    ensures ReadFile(WriteAll(files, shape, texts, embedder), other, t) == ReadFile(files, other, t)
  {
    if texts != [] {
      WriteAllElsewhere(files, shape, texts[..|texts| - 1], embedder, other, t);
      if Key(shape, texts[|texts| - 1]) == Key(other, t) {
        KeysAreDistinct(shape, texts[|texts| - 1], other, t);
      }
    }
  }

  /** A damaged file costs one embedding and never the run, except in the two
      ways the reader does not catch: exactly then the run fails. */
  lemma FailsExactlyOnUncaughtDamage(files: Files, shape: Shape, embedder: Embedder, texts: seq<string>)
    ensures EmbedOn(files, shape, embedder, texts).answer.Err?
       <==> exists t :: t in texts && Key(shape, t) in files && files[Key(shape, t)] in {Refused, Unsized}
  {
    if t :| t in texts && ReadFile(files, shape, t) == Raises {
      assert files[Key(shape, t)] in {Refused, Unsized};
    }
  }
}
