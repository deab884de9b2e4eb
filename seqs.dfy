/** Outcomes of operations that can raise a Python exception. */
module Outcome {

  datatype Option<+T> = None | Some(value: T)

  /** The Python exceptions the analysed code can raise on bad input. */
  datatype PyError = IndexError | KeyError | ValueError | AttributeError | ZeroDivisionError

  datatype Result<+T> = Ok(value: T) | Err(error: PyError)
}

/**
 * List idioms the analyser repeats: "append if not already in the list",
 * Python's ordering of `str` values and `sorted` on a duplicate-free list.
 */
module Seqs {

  predicate NoDups<T(==)>(s: seq<T>)
  {
    forall i, j :: 0 <= i < j < |s| ==> s[i] != s[j]
  }

  /**
   * What the loop `for x in s: if x not in acc: acc.append(x)` leaves in
   * `acc`: every value of `s` once, at its first occurrence.
   */
  function Dedup(s: seq<string>): (r: seq<string>)
    ensures NoDups(r)
    ensures forall x :: x in r <==> x in s
  {
    if s == [] then []
    else
      var d := Dedup(s[..|s| - 1]);
      assert forall x :: x in s <==> x in s[..|s| - 1] || x == s[|s| - 1] by {
        assert s == s[..|s| - 1] + [s[|s| - 1]];
      }
      if s[|s| - 1] in d then d else d + [s[|s| - 1]]
  }

  /** One more iteration of "append if not already in the list". */
  lemma DedupSnoc(s: seq<string>, x: string)
    ensures Dedup(s + [x]) == if x in Dedup(s) then Dedup(s) else Dedup(s) + [x]
  {
    assert (s + [x])[..|s|] == s;
  }

  /** The index of the first occurrence of `x` in `s`. */
  function FirstIndex<T(==)>(s: seq<T>, x: T): (k: nat)
    requires x in s
    ensures k < |s| && s[k] == x && x !in s[..k]
  {
    if s[0] == x then 0 else 1 + FirstIndex(s[1..], x)
  }

  lemma FirstIndexUnique<T>(s: seq<T>, x: T, k: nat)
    requires k < |s| && s[k] == x && x !in s[..k]
    ensures FirstIndex(s, x) == k
  {
    var k' := FirstIndex(s, x);
    assert forall i :: 0 <= i < k ==> s[i] != x by {
      forall i | 0 <= i < k ensures s[i] != x { assert s[..k][i] == s[i]; }
    }
    assert forall i :: 0 <= i < k' ==> s[i] != x by {
      forall i | 0 <= i < k' ensures s[i] != x { assert s[..k'][i] == s[i]; }
    }
  }

  lemma FirstIndexAppend<T>(s: seq<T>, y: T, x: T)
    requires x in s
    ensures FirstIndex(s + [y], x) == FirstIndex(s, x)
  {
    var k := FirstIndex(s, x);
    assert (s + [y])[..k] == s[..k];
    FirstIndexUnique(s + [y], x, k);
  }

  lemma FirstIndexLast<T>(s: seq<T>, y: T)
    requires y !in s
    ensures FirstIndex(s + [y], y) == |s|
  {
    assert (s + [y])[..|s|] == s;
    FirstIndexUnique(s + [y], y, |s|);
  }

  /** `Dedup` lists the values in the order in which they first appear. */
  lemma {:induction false} DedupFirstAppearanceOrder(s: seq<string>)
    ensures forall i, j :: 0 <= i < j < |Dedup(s)| ==>
      FirstIndex(s, Dedup(s)[i]) < FirstIndex(s, Dedup(s)[j])
  {
    if s != [] {
      var p, y := s[..|s| - 1], s[|s| - 1];
      assert s == p + [y];
      DedupFirstAppearanceOrder(p);
      var d := Dedup(p);
      forall x | x in d ensures FirstIndex(s, x) == FirstIndex(p, x) && FirstIndex(p, x) < |p| {
        FirstIndexAppend(p, y, x);
      }
      if y !in d {
        FirstIndexLast(p, y);
      }
    }
  }

  /** Python's `<` on `str`: lexicographic by character code. */
  predicate LexLess(a: string, b: string)
  {
    |b| > 0 && (|a| == 0 || a[0] < b[0] || (a[0] == b[0] && LexLess(a[1..], b[1..])))
  }

  lemma {:induction false} LexIrreflexive(a: string)
    ensures !LexLess(a, a)
  {
    if |a| > 0 { LexIrreflexive(a[1..]); }
  }

  lemma {:induction false} LexTransitive(a: string, b: string, c: string)
    requires LexLess(a, b) && LexLess(b, c)
    ensures LexLess(a, c)
  {
    if |a| > 0 && a[0] == b[0] && b[0] == c[0] {
      LexTransitive(a[1..], b[1..], c[1..]);
    }
  }

  lemma {:induction false} LexTotal(a: string, b: string)
    requires a != b
    ensures LexLess(a, b) || LexLess(b, a)
  {
    if |a| > 0 && |b| > 0 && a[0] == b[0] {
      assert a[1..] != b[1..] by {
        assert a == [a[0]] + a[1..] && b == [b[0]] + b[1..];
      }
      LexTotal(a[1..], b[1..]);
    }
  }

  predicate StrictlySorted(s: seq<string>)
  {
    forall i, j :: 0 <= i < j < |s| ==> LexLess(s[i], s[j])
  }

  /** Insert `x` into its place in a strictly sorted list that lacks it. */
  function InsertSorted(s: seq<string>, x: string): (r: seq<string>)
    requires StrictlySorted(s) && x !in s
    ensures StrictlySorted(r)
    ensures |r| == |s| + 1
    ensures forall y :: y in r <==> y in s || y == x
  {
    if s == [] then [x]
    else if LexLess(x, s[0]) then
      forall j | 0 < j < |s| ensures LexLess(x, s[j]) { LexTransitive(x, s[0], s[j]); }
      [x] + s
    else
      LexTotal(x, s[0]);
      var t := InsertSorted(s[1..], x);
      assert forall y :: y in s <==> y == s[0] || y in s[1..] by {
        assert s == [s[0]] + s[1..];
      }
      forall j | 0 <= j < |t| ensures LexLess(s[0], t[j]) {
        if t[j] != x {
          assert t[j] in t;
          assert t[j] in s[1..];
          var m :| 0 <= m < |s[1..]| && s[1..][m] == t[j];
          assert s[m + 1] == t[j];
        }
      }
      [s[0]] + t
  }

  /** Python's `sorted(names)` for a list without duplicates. */
  method SortNames(names: seq<string>) returns (r: seq<string>)
    requires NoDups(names)
    ensures StrictlySorted(r)
    ensures |r| == |names|
    ensures forall y :: y in r <==> y in names
  {
    r := [];
    var i := 0;
    assert names[..0] == [];
    while i < |names|
      invariant 0 <= i <= |names|
      invariant StrictlySorted(r) && |r| == i
      invariant forall y :: y in r <==> y in names[..i]
    {
      assert names[i] !in names[..i];
      r := InsertSorted(r, names[i]);
      assert names[..i + 1] == names[..i] + [names[i]];
      i := i + 1;
    }
    assert names[..i] == names;
  }

  /** A strictly sorted list is ordered and therefore free of duplicates. */
  lemma SortedNoDups(s: seq<string>)
    requires StrictlySorted(s)
    ensures NoDups(s)
  {
    forall i, j | 0 <= i < j < |s| ensures s[i] != s[j] {
      LexIrreflexive(s[i]);
    }
  }
}

/**
 * A left-to-right loop over a list whose body may raise: the state after
 * the items that were processed, or the first exception.
 */
module Folds {
  import opened Outcome

  function FoldResult<A, X>(step: (A, X) -> Result<A>, init: A, xs: seq<X>): Result<A>
  {
    if xs == [] then Ok(init)
    else
      match FoldResult(step, init, xs[..|xs| - 1])
      case Err(e) => Err(e)
      case Ok(a) => step(a, xs[|xs| - 1])
  }

  /** One more iteration of the loop. */
  lemma FoldSnoc<A, X>(step: (A, X) -> Result<A>, init: A, xs: seq<X>, x: X)
    ensures FoldResult(step, init, xs + [x]) ==
      match FoldResult(step, init, xs)
      case Err(e) => Err(e)
      case Ok(a) => step(a, x)
  {
    assert (xs + [x])[..|xs|] == xs;
  }

  /** The loop after `i + 1` iterations, from the loop after `i`. */
  lemma FoldPrefix<A, X>(step: (A, X) -> Result<A>, init: A, xs: seq<X>, i: nat)
    requires i < |xs|
    ensures FoldResult(step, init, xs[..i + 1]) ==
      match FoldResult(step, init, xs[..i])
      case Err(e) => Err(e)
      case Ok(a) => step(a, xs[i])
  {
    assert xs[..i + 1][..i] == xs[..i];
  }

  /** An exception raised on a prefix ends the loop: the rest is never run. */
  lemma {:induction false} FoldErrSticks<A, X>(step: (A, X) -> Result<A>, init: A, xs: seq<X>, i: nat)
    requires i <= |xs| && FoldResult(step, init, xs[..i]).Err?
    ensures FoldResult(step, init, xs) == FoldResult(step, init, xs[..i])
    decreases |xs| - i
  {
    if i < |xs| {
      assert xs[..i + 1][..i] == xs[..i];
      FoldErrSticks(step, init, xs, i + 1);
    } else {
      assert xs[..i] == xs;
    }
  }
}
