/** Reading quantities out of text: which digits are figures, and what they
    are worth. Everything lexical is a parameter. */
module Numerals {
  import opened Sequences

  datatype Kind = Bare | Currency | Percent | Count

  datatype Quantity = Quantity(value: real, kind: Kind, raw: string, approximate: bool)

  datatype Lexicon = Lexicon(
    digitMap: map<char, char>,
    thousands: set<char>,
    decimals: set<char>,
    groupSize: nat,
    trim: set<char>,
    listMarkers: set<char>,
    listMarkerMaxDigits: nat,
    linePrefixes: set<char>,
    units: map<string, nat>,
    fractions: map<string, real>,
    conjunctions: set<string>,
    floors: set<string>,
    places: set<string>,
    forms: set<string>,
    durations: set<string>,
    approximations: set<seq<string>>,
    currencies: set<seq<string>>,
    percents: set<string>,
    counts: set<string>,
    yearMin: nat,
    yearMax: nat,
    yearDigits: nat,
    yearMarkers: set<string>)
  {
    function Separators(): set<char> {
      thousands + decimals
    }

    /** What the parsing rules take for granted: separators are not digits,
        numbers are grouped by three with a comma, and a point is decimal only. */
    predicate Standard() {
      && (forall c :: c in Separators() ==> !IsDigit(c))
      && groupSize == 3 && ',' in thousands && '.' in decimals && '.' !in thousands
    }

    /** Further, that nothing lexical is spelled with digits or with nothing. */
    predicate Sensible() {
      && Standard()
      && (forall c :: c in trim + listMarkers + linePrefixes ==> !IsDigit(c))
      && "" !in floors + places + forms + durations + percents + counts + yearMarkers + conjunctions
      && "" !in units && "" !in fractions
      && [] !in approximations && [] !in currencies
    }
  }

  predicate IsDigit(c: char) {
    '0' <= c <= '9'
  }

  predicate AllDigits(s: string) {
    forall c :: c in s ==> IsDigit(c)
  }

  function NormalizeDigits(text: string, digitMap: map<char, char>): (r: string)
    ensures |r| == |text|
    ensures forall i :: 0 <= i < |text| ==> r[i] == if text[i] in digitMap then digitMap[text[i]] else text[i]
  {
    if text == "" then ""
    else [if text[0] in digitMap then digitMap[text[0]] else text[0]] + NormalizeDigits(text[1..], digitMap)
  }

  // ------------------------------------------------------------ one number

  function DigitValue(c: char): nat
    requires IsDigit(c)
  {
    (c - '0') as nat
  }

  /** The value of a digit string, as `float` reads it. */
  function Value(s: string): nat
    requires AllDigits(s)
  {
    if s == "" then 0 else Value(s[..|s| - 1]) * 10 + DigitValue(s[|s| - 1])
  }

  function Pow10(n: nat): (p: nat)
    ensures p >= 1
  {
    if n == 0 then 1 else 10 * Pow10(n - 1)
  }

  /** The runs between separators; one more run than separators. */
  function Split(s: string, separators: set<char>): (parts: seq<string>)
    ensures |parts| >= 1
  {
    if s == "" then [""]
    else
      var parts := Split(s[..|s| - 1], separators);
      var c := s[|s| - 1];
      if c in separators then parts + [""]
      else parts[..|parts| - 1] + [parts[|parts| - 1] + [c]]
  }

  function Marks(s: string, separators: set<char>): string {
    if s == "" then "" else Marks(s[..|s| - 1], separators) + (if s[|s| - 1] in separators then [s[|s| - 1]] else "")
  }

  /** What the number pattern can hand to the parser: a digit, then digits and separators. */
  predicate IsBody(s: string, lex: Lexicon) {
    s != "" && IsDigit(s[0]) && forall c :: c in s ==> IsDigit(c) || c in lex.Separators()
  }

  function Decimal(whole: nat, fraction: string): real
    requires AllDigits(fraction)
  {
    whole as real + Value(fraction) as real / Pow10(|fraction|) as real
  }

  /** The separators group thousands, or a single one marks the decimals, or
      the text is not a number. */
  function Resolve(parts: seq<string>, marks: string, lex: Lexicon): Option<real>
    requires |parts| == |marks| + 1 && forall p :: p in parts ==> AllDigits(p)
  {
    if marks == "" then Some(Value(parts[0]) as real)
    else if
      && (forall k :: 1 <= k < |parts| ==> |parts[k]| == lex.groupSize)
      && (forall c :: c in marks ==> c in lex.thousands)
    then
      FlattenDigits(parts);
      Some(Value(Flatten(parts)) as real)
    else if |marks| == 1 && marks[0] in lex.decimals then
      Some(Decimal(Value(parts[0]), parts[1]))
    else None
  }

  /** Total on everything the number pattern can match. */
  function ParseNumber(raw: string, lex: Lexicon): Option<real>
    requires IsBody(raw, lex)
  {
    var body := TrimRight(raw, lex.Separators());
    if body == "" then None
    else
      SplitIsDigits(raw, lex);
      Resolve(Split(body, lex.Separators()), Marks(body, lex.Separators()), lex)
  }

  lemma {:induction false} SplitMembers(s: string, separators: set<char>, i: nat)
    requires i < |Split(s, separators)|
    ensures forall c :: c in Split(s, separators)[i] ==> c in s && c !in separators
  {
    if s != "" {
      var init := s[..|s| - 1];
      var parts := Split(init, separators);
      if i < |parts| {
        SplitMembers(init, separators, i);
      }
    }
  }

  lemma SplitIsDigits(raw: string, lex: Lexicon)
    requires IsBody(raw, lex)
    ensures
      var body := TrimRight(raw, lex.Separators());
      && (forall p :: p in Split(body, lex.Separators()) ==> AllDigits(p))
      && |Split(body, lex.Separators())| == |Marks(body, lex.Separators())| + 1
  {
    var body := TrimRight(raw, lex.Separators());
    assert forall c :: c in body ==> c in raw;
    var parts := Split(body, lex.Separators());
    forall p | p in parts ensures AllDigits(p) {
      var i :| 0 <= i < |parts| && parts[i] == p;
      SplitMembers(body, lex.Separators(), i);
    }
    OneMorePart(body, lex.Separators());
  }

  lemma {:induction false} OneMorePart(s: string, separators: set<char>)
    ensures |Split(s, separators)| == |Marks(s, separators)| + 1
  {
    if s != "" {
      OneMorePart(s[..|s| - 1], separators);
    }
  }

  lemma {:induction false} FlattenDigits(parts: seq<string>)
    requires forall p :: p in parts ==> AllDigits(p)
    ensures AllDigits(Flatten(parts))
  {
    if parts != [] {
      assert parts[0] in parts;
      FlattenDigits(parts[1..]);
    }
  }

  // ------------------------------------------------------------ printing and reading back

  function Digits(n: nat): (s: string)
    ensures s != "" && AllDigits(s)
  {
    if n < 10 then [DigitChar(n)] else Digits(n / 10) + [DigitChar(n % 10)]
  }

  function DigitChar(d: nat): (c: char)
    requires d < 10
    ensures IsDigit(c) && DigitValue(c) == d
  {
    '0' + d as char
  }

  function ThreeDigits(n: nat): (s: string)
    requires n < 1000
    ensures |s| == 3 && AllDigits(s)
  {
    [DigitChar(n / 100), DigitChar(n / 10 % 10), DigitChar(n % 10)]
  }

  /** A whole figure with thousands separators. */
  function Readable(n: nat): (s: string)
    ensures s != "" && IsDigit(s[0]) && IsDigit(s[|s| - 1])
    ensures forall c :: c in s ==> IsDigit(c) || c == ','
    decreases n
  {
    if n < 1000 then Digits(n) else Readable(n / 1000) + "," + ThreeDigits(n % 1000)
  }

  /** Its groups of digits. */
  function Groups(n: nat): (parts: seq<string>)
    ensures |parts| >= 1 && forall p :: p in parts ==> AllDigits(p)
    ensures forall k :: 1 <= k < |parts| ==> |parts[k]| == 3
    ensures |parts| == 1 <==> n < 1000
    decreases n
  {
    if n < 1000 then [Digits(n)] else Groups(n / 1000) + [ThreeDigits(n % 1000)]
  }

  lemma {:induction false} SplitAppendDigits(s: string, d: string, separators: set<char>)
    requires forall c :: c in d ==> c !in separators
    ensures
      var parts := Split(s, separators);
      Split(s + d, separators) == parts[..|parts| - 1] + [parts[|parts| - 1] + d]
    ensures Marks(s + d, separators) == Marks(s, separators)
    decreases |d|
  {
    if d == "" {
      assert s + d == s;
      assert forall t: string :: t + "" == t;
    } else {
      var init := d[..|d| - 1];
      assert (s + d)[..|s + d| - 1] == s + init;
      SplitAppendDigits(s, init, separators);
      var parts := Split(s, separators);
      assert parts[|parts| - 1] + init + [d[|d| - 1]] == parts[|parts| - 1] + d;
      assert Marks(s, separators) + "" == Marks(s, separators);
    }
  }

  lemma SplitAppendMark(s: string, c: char, separators: set<char>)
    requires c in separators
    ensures Split(s + [c], separators) == Split(s, separators) + [""]
    ensures Marks(s + [c], separators) == Marks(s, separators) + [c]
  {
    assert (s + [c])[..|s|] == s;
  }

  lemma GroupAppended(head: string, parts: seq<string>, group: string, mark: char, separators: set<char>)
    requires Split(head, separators) == parts
    requires mark in separators && forall c :: c in group ==> c !in separators
    ensures Split(head + [mark] + group, separators) == parts + [group]
    ensures Marks(head + [mark] + group, separators) == Marks(head, separators) + [mark]
  {
    SplitAppendMark(head, mark, separators);
    SplitAppendDigits(head + [mark], group, separators);
    var all := Split(head + [mark], separators);
    assert all[..|all| - 1] == parts && "" + group == group;
  }

  lemma {:induction false} ReadableSplits(n: nat, lex: Lexicon)
    requires lex.Standard()
    ensures Split(Readable(n), lex.Separators()) == Groups(n)
    ensures forall c :: c in Marks(Readable(n), lex.Separators()) ==> c == ','
    ensures |Marks(Readable(n), lex.Separators())| == |Groups(n)| - 1
    decreases n
  {
    var separators := lex.Separators();
    if n < 1000 {
      PlainSplits(Digits(n), separators);
    } else {
      ReadableSplits(n / 1000, lex);
      var head, group := Readable(n / 1000), ThreeDigits(n % 1000);
      assert Readable(n) == head + [','] + group;
      GroupAppended(head, Groups(n / 1000), group, ',', separators);
    }
  }

  lemma PlainSplits(d: string, separators: set<char>)
    requires forall c :: c in d ==> c !in separators
    ensures Split(d, separators) == [d] && Marks(d, separators) == ""
  {
    assert "" + d == d;
    SplitAppendDigits("", d, separators);
    assert Split("", separators) == [""];
  }

  lemma {:induction false} ValueAppend(s: string, t: string)
    requires AllDigits(s) && AllDigits(t)
    ensures AllDigits(s + t) && Value(s + t) == Value(s) * Pow10(|t|) + Value(t)
    decreases |t|
  {
    if t == "" {
      assert s + t == s;
    } else {
      var init := t[..|t| - 1];
      ValueAppend(s, init);
      assert (s + t)[..|s + t| - 1] == s + init;
      TimesTen(Value(s), Pow10(|init|));
    }
  }

  lemma TimesTen(v: nat, p: nat)
    ensures v * (10 * p) == v * p * 10
  {
  }

  lemma {:induction false} DigitsValue(n: nat)
    ensures Value(Digits(n)) == n
    decreases n
  {
    if n >= 10 {
      DigitsValue(n / 10);
      assert Digits(n)[..|Digits(n)| - 1] == Digits(n / 10);
    } else {
      assert Digits(n)[..0] == "";
    }
  }

  lemma ValueOfThree(a: char, b: char, c: char)
    requires IsDigit(a) && IsDigit(b) && IsDigit(c)
    ensures Value([a, b, c]) == DigitValue(a) * 100 + DigitValue(b) * 10 + DigitValue(c)
  {
    assert [a, b, c][..2] == [a, b] && [a, b][..1] == [a] && [a][..0] == "";
    assert Value([a]) == DigitValue(a);
    assert Value([a, b]) == DigitValue(a) * 10 + DigitValue(b);
  }

  lemma ThreeDigitsValue(n: nat)
    requires n < 1000
    ensures Value(ThreeDigits(n)) == n
  {
    ValueOfThree(DigitChar(n / 100), DigitChar(n / 10 % 10), DigitChar(n % 10));
  }

  lemma {:induction false} GroupsValue(n: nat)
    ensures AllDigits(Flatten(Groups(n))) && Value(Flatten(Groups(n))) == n
    decreases n
  {
    if n < 1000 {
      DigitsValue(n);
      assert Flatten([Digits(n)]) == Digits(n) + Flatten([]);
      assert Digits(n) + [] == Digits(n);
    } else {
      GroupsValue(n / 1000);
      FlattenAppend(Groups(n / 1000), ThreeDigits(n % 1000));
      ValueAppend(Flatten(Groups(n / 1000)), ThreeDigits(n % 1000));
      ThreeDigitsValue(n % 1000);
      assert Pow10(3) == 1000 by {
        assert Pow10(1) == 10 && Pow10(2) == 100;
      }
    }
  }

  lemma {:induction false} TrimTail(s: string, tail: string, drop: set<char>)
    requires forall c :: c in tail ==> c in drop
    ensures TrimRight(s + tail, drop) == TrimRight(s, drop)
    decreases |tail|
  {
    if tail == "" {
      assert s + tail == s;
    } else {
      assert (s + tail)[..|s + tail| - 1] == s + tail[..|tail| - 1];
      TrimTail(s, tail[..|tail| - 1], drop);
    }
  }

  /** Whatever whole number is printed reads back as itself, whatever
      separators trail after it. */
  lemma PrintedFigureReadsBack(n: nat, tail: string, lex: Lexicon)
    requires lex.Standard() && forall c :: c in tail ==> c in lex.Separators()
    ensures IsBody(Readable(n) + tail, lex)
    ensures ParseNumber(Readable(n) + tail, lex) == Some(n as real)
  {
    TrimTail(Readable(n), tail, lex.Separators());
    assert TrimRight(Readable(n), lex.Separators()) == Readable(n);
    SplitIsDigits(Readable(n) + tail, lex);
    ReadableSplits(n, lex);
    GroupsResolve(n, Marks(Readable(n), lex.Separators()), lex);
  }

  lemma GroupsResolve(n: nat, marks: string, lex: Lexicon)
    requires lex.Standard() && |Groups(n)| == |marks| + 1 && forall c :: c in marks ==> c == ','
    ensures Resolve(Groups(n), marks, lex) == Some(n as real)
  {
    if n < 1000 {
      DigitsValue(n);
    } else {
      GroupsValue(n);
    }
  }

  /** A figure printed with a decimal point parses exactly when its whole part
      needed no grouping: a comma and a point together are not a number. */
  lemma PointedParsesExactlyUngrouped(n: nat, fraction: string, lex: Lexicon)
    requires lex.Standard() && fraction != "" && AllDigits(fraction)
    ensures IsBody(Readable(n) + "." + fraction, lex)
    ensures ParseNumber(Readable(n) + "." + fraction, lex)
         == if n < 1000 then Some(Decimal(n, fraction)) else None
  {
    var separators := lex.Separators();
    var s := Readable(n) + "." + fraction;
    ReadableSplits(n, lex);
    GroupAppended(Readable(n), Groups(n), fraction, '.', separators);
    assert s[|s| - 1] == fraction[|fraction| - 1];
    assert TrimRight(s, separators) == s;
    SplitIsDigits(s, lex);
    DecimalResolves(n, fraction, Marks(Readable(n), separators), lex);
  }

  lemma DecimalResolves(n: nat, fraction: string, commas: string, lex: Lexicon)
    requires lex.Standard() && AllDigits(fraction) && |commas| == |Groups(n)| - 1
    ensures Resolve(Groups(n) + [fraction], commas + ".", lex)
         == if n < 1000 then Some(Decimal(n, fraction)) else None
  {
    var parts := Groups(n) + [fraction];
    PointStands(parts, commas, lex);
    if n < 1000 {
      DigitsValue(n);
      assert parts[0] == Digits(n) && parts[1] == fraction;
    }
  }

  /** A decimal point among the marks rules grouping out. */
  lemma PointStands(parts: seq<string>, commas: string, lex: Lexicon)
    requires lex.Standard() && |parts| == |commas| + 2 && forall p :: p in parts ==> AllDigits(p)
    ensures Resolve(parts, commas + ".", lex)
         == if commas == "" then Some(Decimal(Value(parts[0]), parts[1]))
            else None
  {
    var marks := commas + ".";
    assert marks[|commas|] == '.' && '.' in marks;
  }

  // ------------------------------------------------------------ what any body is worth

  /** Groups of digits with their separators between them. */
  function Written(parts: seq<string>, marks: string): string
    requires |parts| == |marks| + 1
  {
    if marks == "" then parts[0]
    else Written(parts[..|parts| - 1], marks[..|marks| - 1]) + [marks[|marks| - 1]] + parts[|parts| - 1]
  }

  predicate DigitGroups(parts: seq<string>) {
    forall k :: 0 <= k < |parts| ==> AllDigits(parts[k])
  }

  predicate AreMarks(marks: string, separators: set<char>) {
    forall k :: 0 <= k < |marks| ==> marks[k] in separators
  }

  lemma {:induction false} WrittenSplits(parts: seq<string>, marks: string, separators: set<char>)
    requires |parts| == |marks| + 1 && AreMarks(marks, separators) && DigitGroups(parts)
    requires forall c :: c in separators ==> !IsDigit(c)
    ensures Split(Written(parts, marks), separators) == parts && Marks(Written(parts, marks), separators) == marks
    decreases |marks|
  {
    if marks == "" {
      PlainSplits(parts[0], separators);
      assert parts == [parts[0]];
    } else {
      var n := |marks| - 1;
      WrittenSplits(parts[..n + 1], marks[..n], separators);
      WrittenNext(Written(parts[..n + 1], marks[..n]), parts[..n + 1], marks[..n], marks[n], parts[n + 1], separators);
      assert parts[..n + 1] + [parts[n + 1]] == parts;
      assert marks[..n] + [marks[n]] == marks;
    }
  }

  lemma WrittenNext(head: string, parts: seq<string>, marks: string, mark: char, last: string, separators: set<char>)
    requires Split(head, separators) == parts && Marks(head, separators) == marks
    requires mark in separators && AllDigits(last) && forall c :: c in separators ==> !IsDigit(c)
    ensures Split(head + [mark] + last, separators) == parts + [last]
    ensures Marks(head + [mark] + last, separators) == marks + [mark]
  {
    GroupAppended(head, parts, last, mark, separators);
  }

  lemma {:induction false} WrittenIsBody(parts: seq<string>, marks: string, lex: Lexicon)
    requires |parts| == |marks| + 1 && AreMarks(marks, lex.Separators()) && DigitGroups(parts) && parts[0] != ""
    ensures IsBody(Written(parts, marks), lex)
    decreases |marks|
  {
    if marks != "" {
      WrittenIsBody(parts[..|marks|], marks[..|marks| - 1], lex);
    }
  }

  lemma WrittenStays(parts: seq<string>, marks: string, lex: Lexicon)
    requires |parts| == |marks| + 1 && parts[|marks|] != "" && AllDigits(parts[|marks|]) && lex.Standard()
    ensures TrimRight(Written(parts, marks), lex.Separators()) == Written(parts, marks)
  {
    var s, last := Written(parts, marks), parts[|marks|];
    assert s[|s| - 1] == last[|last| - 1] && last[|last| - 1] in last;
  }

  /** Separators that group: each may, and every group but the first is three digits. */
  predicate InThousands(parts: seq<string>, marks: string, lex: Lexicon) {
    (forall k :: 1 <= k < |parts| ==> |parts[k]| == 3) && forall c :: c in marks ==> c in lex.thousands
  }

  /** What digits and separators are worth, whatever they are. Without
      separators, the digits; with separators that group, all the digits
      together; with a single other separator that marks decimals, what stands
      before it and after it. Anything else is no number. */
  lemma ParsesExactly(parts: seq<string>, marks: string, lex: Lexicon)
    requires |parts| == |marks| + 1 && AreMarks(marks, lex.Separators()) && DigitGroups(parts)
    requires parts[0] != "" && parts[|marks|] != "" && lex.Standard()
    ensures IsBody(Written(parts, marks), lex) && AllDigits(Flatten(parts))
    ensures
      var value := ParseNumber(Written(parts, marks), lex);
      if marks == "" || InThousands(parts, marks, lex) then value == Some(Value(Flatten(parts)) as real)
      else if |marks| == 1 && marks[0] in lex.decimals then value == Some(Decimal(Value(parts[0]), parts[1]))
      else value == None
  {
    WrittenIsBody(parts, marks, lex);
    FlattenDigits(parts);
    WrittenStays(parts, marks, lex);
    WrittenSplits(parts, marks, lex.Separators());
    ResolvesExactly(parts, marks, lex);
  }

  lemma ResolvesExactly(parts: seq<string>, marks: string, lex: Lexicon)
    requires |parts| == |marks| + 1 && (forall p :: p in parts ==> AllDigits(p)) && lex.Standard()
    requires AllDigits(Flatten(parts))
    ensures
      var value := Resolve(parts, marks, lex);
      if marks == "" || InThousands(parts, marks, lex) then value == Some(Value(Flatten(parts)) as real)
      else if |marks| == 1 && marks[0] in lex.decimals then value == Some(Decimal(Value(parts[0]), parts[1]))
      else value == None
  {
    if marks == "" {
      assert parts[1..] == [] && Flatten(parts[1..]) == [];
      assert Flatten(parts) == parts[0] + [] == parts[0];
    }
  }

  /** A decimal is worth its digits, point aside, a power of ten apart. */
  lemma DecimalShifts(whole: nat, fraction: string)
    requires AllDigits(fraction)
    ensures Decimal(whole, fraction) * Pow10(|fraction|) as real
         == whole as real * Pow10(|fraction|) as real + Value(fraction) as real
  {
    Shifted(whole as real, Value(fraction) as real, Pow10(|fraction|) as real);
  }

  lemma Shifted(w: real, v: real, p: real)
    requires p > 0.0
    ensures (w + v / p) * p == w * p + v
  {
    var q := v / p;
    assert q * p == v;
    assert (w + q) * p == w * p + q * p;
  }
}
