/** Vocabulary shared by the models: optional values, results, and a few
    operations with the laws the proofs need. */
module Sequences {

  datatype Option<+T> = None | Some(value: T) {
    function GetOr(default: T): T {
      if Some? then value else default
    }
  }

  datatype Result<+T, +E> = Ok(value: T) | Err(error: E)

  /** The elements of `s` in order, each kept only where it first occurs and
      only when it is not in `seen`. */
  function FirstOccurrences<T(==,!new)>(s: seq<T>, seen: set<T>): (r: seq<T>)
    ensures forall x :: x in r <==> x in s && x !in seen
    ensures forall i, j :: 0 <= i < j < |r| ==> r[i] != r[j]
  {
    if s == [] then []
    else if s[0] in seen then FirstOccurrences(s[1..], seen)
    else [s[0]] + FirstOccurrences(s[1..], seen + {s[0]})
  }

  lemma {:induction false} FirstOccurrencesAppend<T(!new)>(s: seq<T>, x: T, seen: set<T>)
    ensures FirstOccurrences(s + [x], seen)
         == FirstOccurrences(s, seen) + (if x in s || x in seen then [] else [x])
  {
    if s == [] {
      assert [x][1..] == [];
    } else {
      assert (s + [x])[1..] == s[1..] + [x];
      FirstOccurrencesAppend(s[1..], x, if s[0] in seen then seen else seen + {s[0]});
    }
  }

  /** `s` without what it begins, ends, or begins and ends with of `drop`. */
  function TrimLeft(s: string, drop: set<char>): (r: string)
    ensures forall c :: c in r ==> c in s
  {
    if s != "" && s[0] in drop then TrimLeft(s[1..], drop) else s
  }

  function TrimRight(s: string, drop: set<char>): (r: string)
    ensures r <= s
    ensures r != "" ==> r[|r| - 1] !in drop
  {
    if s != "" && s[|s| - 1] in drop then TrimRight(s[..|s| - 1], drop) else s
  }

  function Trim(s: string, drop: set<char>): string {
    TrimRight(TrimLeft(s, drop), drop)
  }

  lemma {:induction false} TrimLeavesNothing(s: string, drop: set<char>)
    ensures Trim(s, drop) == "" <==> forall c :: c in s ==> c in drop
  {
    if s != "" && s[0] in drop {
      TrimLeavesNothing(s[1..], drop);
      assert forall c :: c in s <==> c == s[0] || c in s[1..];
    } else if s != "" {
      TrimRightKeepsFirst(s, drop);
    }
  }

  lemma {:induction false} TrimRightKeepsFirst(s: string, drop: set<char>)
    requires s != "" && s[0] !in drop
    ensures TrimRight(s, drop) != ""
  {
    if s[|s| - 1] in drop {
      TrimRightKeepsFirst(s[..|s| - 1], drop);
    }
  }

  function Flatten<T>(parts: seq<seq<T>>): seq<T> {
    if parts == [] then [] else parts[0] + Flatten(parts[1..])
  }

  lemma {:induction false} FlattenAppend<T>(parts: seq<seq<T>>, last: seq<T>)
    ensures Flatten(parts + [last]) == Flatten(parts) + last
  {
    if parts == [] {
      assert [last][1..] == [];
    } else {
      assert (parts + [last])[1..] == parts[1..] + [last];
      FlattenAppend(parts[1..], last);
    }
  }

  lemma {:induction false} FlattenSplit<T>(first: seq<seq<T>>, rest: seq<seq<T>>)
    ensures Flatten(first + rest) == Flatten(first) + Flatten(rest)
  {
    if first == [] {
      assert first + rest == rest;
    } else {
      assert (first + rest)[1..] == first[1..] + rest;
      FlattenSplit(first[1..], rest);
    }
  }

  lemma SliceOfSlice<T>(s: seq<T>, j: nat, m: nat, i: nat, n: nat)
    requires j + m <= |s| && i + n <= m
    ensures s[j..j + m][i..i + n] == s[j + i..j + i + n]
  {
    var slice := s[j..j + m];
    assert forall k :: i <= k < i + n ==> slice[k] == s[j + k];
    var inner, outer := slice[i..i + n], s[j + i..j + i + n];
    assert forall k :: 0 <= k < n ==> inner[k] == outer[k];
  }

  /** `a` is `b` with some of it left out. */
  predicate Subsequence<T(==)>(a: seq<T>, b: seq<T>) {
    if a == [] then true
    else if b == [] then false
    else (a[0] == b[0] && Subsequence(a[1..], b[1..])) || Subsequence(a, b[1..])
  }

  lemma SubsequenceOfMore<T>(a: seq<T>, b: seq<T>)
    requires b != [] && Subsequence(a, b[1..])
    ensures Subsequence(a, b)
  {
  }

  /** m times k, one at a time. */
  function Times(k: nat, m: nat): nat {
    if m == 0 then 0 else k + Times(k, m - 1)
  }

  lemma {:induction false} TimesIs(k: nat, m: nat)
    ensures Times(k, m) == k * m
  {
    if m > 0 {
      TimesIs(k, m - 1);
    }
  }

  lemma TimesMonotone(k: nat, a: int, b: int)
    requires a <= b
    ensures k * a <= k * b
  {
  }
}
