/**
 * The filtering and subplot layout of `bbdata.py`: file names filtered by
 * keywords (every keyword of an intersection list, any keyword of a union
 * list), and the trend data frames of one plot split into a grid of
 * subplots holding at most five trends each.
 */
module BBData {
  import opened Outcome
  import opened PyStr

  const TRENDS_PER_SUBPLOT: nat := 5
  const MAX_SUBPLOT_ROWS: nat := 5

  // ------------------------------------------------------------- filtering

  /** `x` contains every keyword of `keys`. */
  predicate HasAll(x: string, keys: seq<string>)
  {
    forall k :: k in keys ==> Contains(x, k)
  }

  /** The order-preserving subsequence of `xs` whose names contain every keyword of `keys`. */
  function Filtered(xs: seq<string>, keys: seq<string>): (r: seq<string>)
    ensures |r| <= |xs|
  {
    if xs == [] then []
    else
      var p, x := xs[..|xs| - 1], xs[|xs| - 1];
      assert xs == p + [x];
      Filtered(p, keys) + (if HasAll(x, keys) then [x] else [])
  }

  /** A name survives the filter exactly when it is listed and holds every keyword. */
  lemma {:induction false} FilteredMembers(xs: seq<string>, keys: seq<string>, x: string)
    ensures x in Filtered(xs, keys) <==> x in xs && HasAll(x, keys)
  {
    if xs != [] {
      var p, y := xs[..|xs| - 1], xs[|xs| - 1];
      assert xs == p + [y];
      FilteredMembers(p, keys, x);
    }
  }

  /** The filter works name by name: filtering a concatenation concatenates the filtered parts, in order. */
  lemma {:induction false} FilteredAppend(xs: seq<string>, ys: seq<string>, keys: seq<string>)
    ensures Filtered(xs + ys, keys) == Filtered(xs, keys) + Filtered(ys, keys)
    decreases |ys|
  {
    if ys == [] {
      assert xs + ys == xs;
    } else {
      var q, y := ys[..|ys| - 1], ys[|ys| - 1];
      var t := if HasAll(y, keys) then [y] else [];
      assert (xs + ys)[..|xs + ys| - 1] == xs + q && (xs + ys)[|xs + ys| - 1] == y;
      assert Filtered(xs + ys, keys) == Filtered(xs + q, keys) + t;
      assert Filtered(ys, keys) == Filtered(q, keys) + t;
      FilteredAppend(xs, q, keys);
    }
  }

  /** A single name is kept exactly when it holds every keyword. */
  lemma FilteredSingle(x: string, keys: seq<string>)
    ensures Filtered([x], keys) == if HasAll(x, keys) then [x] else []
  {
    assert [x][..0] == [];
  }

  /** Filtering by no keyword keeps everything. */
  lemma {:induction false} FilteredNone(xs: seq<string>)
    ensures Filtered(xs, []) == xs
  {
    if xs != [] {
      FilteredNone(xs[..|xs| - 1]);
    }
  }

  /** Filtering by one keyword, then by the rest, is filtering by all of them. */
  lemma {:induction false} FilteredThen(xs: seq<string>, k: string, rest: seq<string>)
    ensures Filtered(Filtered(xs, [k]), rest) == Filtered(xs, [k] + rest)
  {
    if xs != [] {
      var p, x := xs[..|xs| - 1], xs[|xs| - 1];
      FilteredThen(p, k, rest);
      assert HasAll(x, [k] + rest) <==> HasAll(x, [k]) && HasAll(x, rest) by {
        assert forall y :: y in [k] + rest <==> y == k || y in rest;
      }
      var q := Filtered(p, [k]);
      if HasAll(x, [k]) {
        assert Filtered(xs, [k]) == q + [x];
        assert (q + [x])[..|q|] == q;
        assert Filtered(q + [x], rest) == Filtered(q, rest) + (if HasAll(x, rest) then [x] else []);
      } else {
        assert Filtered(xs, [k]) == q;
      }
    }
  }

  /** How many times `x` occurs in `xs`. */
  function Occurrences(xs: seq<string>, x: string): nat
  {
    multiset(xs)[x]
  }

  /** A name keeps all of its copies when it holds the keywords, and none otherwise. */
  lemma {:induction false} FilteredOccurrences(xs: seq<string>, keys: seq<string>, x: string)
    ensures Occurrences(Filtered(xs, keys), x) == if HasAll(x, keys) then Occurrences(xs, x) else 0
  {
    if xs != [] {
      var p, y := xs[..|xs| - 1], xs[|xs| - 1];
      assert xs == p + [y];
      FilteredOccurrences(p, keys, x);
    }
  }

  /**
   * `filterRecur(count, filterList, filtered_filenames)`: nothing left to
   * filter on or nothing to filter returns the list as given; otherwise the
   * names holding `filterList[count]` are kept, in order, and the recursion
   * goes on with the next keyword.
   */
  method FilterRecur(count: nat, filterList: seq<string>, filtered: seq<string>) returns (r: seq<string>)
    ensures count >= |filterList| ==> r == filtered
    ensures count < |filterList| ==> r == Filtered(filtered, filterList[count..])
    decreases |filterList| - count
  {
    if count >= |filterList| {
      return filtered;
    } else if |filtered| == 0 {
      return filtered;
    }
    var key := filterList[count];
    var newFilenames: seq<string> := [];
    for f := 0 to |filtered|
      invariant newFilenames == Filtered(filtered[..f], [key])
    {
      assert filtered[..f + 1][..f] == filtered[..f];
      assert HasAll(filtered[f], [key]) <==> Contains(filtered[f], key);
      if Contains(filtered[f], key) {
        newFilenames := newFilenames + [filtered[f]];
      }
    }
    assert filtered[..|filtered|] == filtered;
    r := FilterRecur(count + 1, filterList, newFilenames);
    assert filterList[count..] == [key] + filterList[count + 1..];
    FilteredThen(filtered, key, filterList[count + 1..]);
    if count + 1 >= |filterList| {
      FilteredNone(newFilenames);
    }
  }

  /** The union of single-keyword filters over `base`, concatenated keyword by keyword. */
  function UnionOf(us: seq<string>, base: seq<string>): (r: seq<string>)
    ensures base == [] ==> r == []
    ensures |us| == 1 ==> r == Filtered(base, us)
  {
    if us == [] then []
    else
      var p, u := us[..|us| - 1], us[|us| - 1];
      assert |us| == 1 ==> p == [] && us == [u];
      UnionOf(p, base) + Filtered(base, [u])
  }

  /** A name is in the union exactly when it is in the base and holds some keyword. */
  lemma {:induction false} UnionMembers(us: seq<string>, base: seq<string>, x: string)
    ensures x in UnionOf(us, base) <==> x in base && exists u :: u in us && Contains(x, u)
  {
    if us != [] {
      var p, u := us[..|us| - 1], us[|us| - 1];
      assert us == p + [u];
      UnionMembers(p, base, x);
      FilteredMembers(base, [u], x);
      assert HasAll(x, [u]) <==> Contains(x, u);
    }
  }

  lemma UnionOfPrefix(us: seq<string>, base: seq<string>, j: nat)
    requires j < |us|
    ensures UnionOf(us[..j + 1], base) == UnionOf(us[..j], base) + Filtered(base, [us[j]])
  {
    assert us[..j + 1][..j] == us[..j];
  }

  /** How many keywords of `us` the name `x` contains, counted with repetition. */
  function Matches(us: seq<string>, x: string): nat
  {
    if us == [] then 0
    else Matches(us[..|us| - 1], x) + (if Contains(x, us[|us| - 1]) then 1 else 0)
  }

  /** A name appears in the union once per copy in the base and per keyword it contains. */
  lemma {:induction false} UnionOccurrences(us: seq<string>, base: seq<string>, x: string)
    ensures Occurrences(UnionOf(us, base), x) == Occurrences(base, x) * Matches(us, x)
  {
    if us != [] {
      var p, u := us[..|us| - 1], us[|us| - 1];
      var a, b := UnionOf(p, base), Filtered(base, [u]);
      UnionOccurrences(p, base, x);
      FilteredOccurrences(base, [u], x);
      assert HasAll(x, [u]) <==> Contains(x, u);
      assert multiset(a + b) == multiset(a) + multiset(b);
      if Contains(x, u) {
        MulSucc(Occurrences(base, x), Matches(p, x));
      }
    }
  }

  lemma MulSucc(a: nat, b: nat)
    ensures a * (b + 1) == a * b + a
  {
  }

  /**
   * One half of `filter_data`: the intersection keywords filter the full
   * list; the union keywords then filter that result, or the full list when
   * it is empty; with no union keyword the intersection result stands.
   */
  function Narrowed(nList: seq<string>, uList: seq<string>, xs: seq<string>): (r: seq<string>)
    ensures nList == [] && uList == [] ==> r == []
    ensures nList == [] && uList != [] ==> r == UnionOf(uList, xs)
  {
    var n := if nList == [] then [] else Filtered(xs, nList);
    var base := if n == [] then xs else n;
    if uList == [] then n else UnionOf(uList, base)
  }

  /**
   * What survives one half: without union keywords, the names holding every
   * intersection keyword; with them, names holding some union keyword, and
   * also every intersection keyword unless none matched them all.
   */
  lemma NarrowedMembers(nList: seq<string>, uList: seq<string>, xs: seq<string>, x: string)
    ensures uList == [] ==> (x in Narrowed(nList, uList, xs) <==> nList != [] && x in xs && HasAll(x, nList))
    ensures uList != [] ==> (x in Narrowed(nList, uList, xs) <==>
      x in xs && (exists u :: u in uList && Contains(x, u))
      && (nList != [] && Filtered(xs, nList) != [] ==> HasAll(x, nList)))
  {
    FilteredMembers(xs, nList, x);
    var n := if nList == [] then [] else Filtered(xs, nList);
    var base := if n == [] then xs else n;
    UnionMembers(uList, base, x);
  }

  /** An intersection that matches nothing is dropped: the union filters the full list. */
  lemma NarrowedFallsBack(nList: seq<string>, uList: seq<string>, xs: seq<string>)
    requires uList != [] && Filtered(xs, nList) == []
    ensures Narrowed(nList, uList, xs) == UnionOf(uList, xs)
  {
  }

  /** The repeated block of `filter_data` for one pair of keyword lists. */
  method NarrowNames(nList: seq<string>, uList: seq<string>, filenames: seq<string>) returns (names: seq<string>)
    ensures names == Narrowed(nList, uList, filenames)
  {
    var nNames: seq<string> := [];
    if nList != [] {
      nNames := FilterRecur(0, nList, filenames);
    }
    var fNames := if nNames == [] then filenames else nNames;
    var uNames: seq<string> := [];
    assert uList[..0] == [];
    for j := 0 to |uList|
      invariant uNames == UnionOf(uList[..j], fNames)
    {
      var found := FilterRecur(0, [uList[j]], fNames);
      assert [uList[j]][0..] == [uList[j]];
      UnionOfPrefix(uList, fNames, j);
      uNames := uNames + found;
    }
    assert uList[..|uList|] == uList;
    names := if uList != [] then uNames else nNames;
  }

  /**
   * `filter_data`: the keyword names followed by the prereq names, each
   * half computed from the full list of file names.
   */
  method FilterData(nKeywords: seq<string>, uKeywords: seq<string>, nPrereqs: seq<string>, uPrereqs: seq<string>,
                    filenames: seq<string>) returns (resultNames: seq<string>)
    ensures resultNames == Narrowed(nKeywords, uKeywords, filenames) + Narrowed(nPrereqs, uPrereqs, filenames)
    ensures nKeywords == [] && uKeywords == [] && nPrereqs == [] && uPrereqs == [] ==> resultNames == []
    ensures forall x :: x in resultNames ==> x in filenames
  {
    var keywordNames := NarrowNames(nKeywords, uKeywords, filenames);
    var prereqNames := NarrowNames(nPrereqs, uPrereqs, filenames);
    forall x | x in keywordNames ensures x in filenames {
      NarrowedMembers(nKeywords, uKeywords, filenames, x);
    }
    forall x | x in prereqNames ensures x in filenames {
      NarrowedMembers(nPrereqs, uPrereqs, filenames, x);
    }
    resultNames := keywordNames + prereqNames;
  }

  // ------------------------------------------------------------ subplot grid

  /** `int(math.ceil(a / float(b)))` for natural numbers. */
  function CeilDiv(a: nat, b: nat): (q: nat)
    requires b > 0
    ensures q * b >= a
    ensures q == 0 || (q - 1) * b < a
  {
    (a + b - 1) / b
  }

  datatype Grid = Grid(numSubplots: nat, numRows: nat, numCols: nat)

  /**
   * The grid of one plot of `n` trends: enough subplots of five trends, at
   * most five rows, enough columns; no trend at all divides by zero rows.
   */
  function GridSize(n: nat): (r: Result<Grid>)
    ensures r.Err? <==> n == 0
    ensures r.Err? ==> r.error == ZeroDivisionError
    ensures r.Ok? ==> 1 <= r.value.numRows <= MAX_SUBPLOT_ROWS
    ensures r.Ok? ==> r.value.numSubplots * TRENDS_PER_SUBPLOT >= n > (r.value.numSubplots - 1) * TRENDS_PER_SUBPLOT
    ensures r.Ok? ==> r.value.numRows * r.value.numCols >= r.value.numSubplots
  {
    var numSubplots := CeilDiv(n, TRENDS_PER_SUBPLOT);
    var numRows := if MAX_SUBPLOT_ROWS < numSubplots then MAX_SUBPLOT_ROWS else numSubplots;
    if numRows == 0 then Err(ZeroDivisionError)
    else Ok(Grid(numSubplots, numRows, CeilDiv(numSubplots, numRows)))
  }

  /** The trends `[start, stop)` one subplot draws. */
  datatype Chunk = Chunk(start: nat, stop: nat)

  /** Consecutive chunks from 0 to `n`, none of more than five trends. */
  predicate Tiles(chunks: seq<Chunk>, n: nat)
  {
    && (forall k :: 0 <= k < |chunks| ==> chunks[k].start <= chunks[k].stop <= chunks[k].start + TRENDS_PER_SUBPLOT)
    && (forall k :: 0 < k < |chunks| ==> chunks[k].start == chunks[k - 1].stop)
    && (chunks == [] ==> n == 0)
    && (chunks != [] ==> chunks[0].start == 0 && chunks[|chunks| - 1].stop == n)
  }

  /**
   * The loops over columns and rows of `make_subplot`: each subplot takes
   * the next five trends or what is left; the inner loop breaks once the
   * last trend is drawn, so every later column still draws one empty
   * subplot.
   */
  method SubplotChunks(n: nat) returns (r: Result<seq<Chunk>>)
    ensures r.Err? <==> GridSize(n).Err?
    ensures r.Err? ==> r.error == GridSize(n).error
    ensures r.Ok? ==> Tiles(r.value, n)
    ensures r.Ok? ==> |r.value| <= GridSize(n).value.numRows * GridSize(n).value.numCols
  {
    var grid := GridSize(n);
    if grid.Err? {
      return Err(grid.error);
    }
    var numRows, numCols := grid.value.numRows, grid.value.numCols;
    var chunks: seq<Chunk> := [];
    var iEnd := 0;
    for nc := 0 to numCols
      invariant iEnd <= n
      invariant |chunks| <= nc * numRows
      invariant iEnd == n || (iEnd == TRENDS_PER_SUBPLOT * |chunks| && |chunks| == nc * numRows)
      invariant Tiles(chunks, iEnd)
    {
      var nr := 0;
      while nr < numRows
        invariant 0 <= nr <= numRows
        invariant iEnd <= n
        invariant |chunks| <= nc * numRows + nr
        invariant iEnd == n || (iEnd == TRENDS_PER_SUBPLOT * |chunks| && |chunks| == nc * numRows + nr)
        invariant Tiles(chunks, iEnd)
      {
        var iStart := iEnd;
        iEnd := if iStart + TRENDS_PER_SUBPLOT < n then iStart + TRENDS_PER_SUBPLOT else n;
        TilesAppend(chunks, iStart, iEnd);
        chunks := chunks + [Chunk(iStart, iEnd)];
        if iEnd == n {
          break;
        }
        nr := nr + 1;
      }
      assert |chunks| <= (nc + 1) * numRows;
    }
    assert TRENDS_PER_SUBPLOT * (numRows * numCols) >= n;
    r := Ok(chunks);
  }

  /** A tiling up to `n` extended by the chunk `[n, m)` tiles up to `m`. */
  lemma TilesAppend(chunks: seq<Chunk>, n: nat, m: nat)
    requires Tiles(chunks, n) && n <= m <= n + TRENDS_PER_SUBPLOT
    ensures Tiles(chunks + [Chunk(n, m)], m)
  {
    var c := chunks + [Chunk(n, m)];
    assert forall k :: 0 <= k < |chunks| ==> c[k] == chunks[k];
  }

  /** Every trend lies in exactly one subplot of a tiling. */
  lemma {:induction false} TilesCover(chunks: seq<Chunk>, n: nat, i: nat) returns (k: nat)
    requires Tiles(chunks, n) && i < n
    ensures k < |chunks| && chunks[k].start <= i < chunks[k].stop
    ensures forall k' :: 0 <= k' < |chunks| && chunks[k'].start <= i < chunks[k'].stop ==> k' == k
  {
    k := 0;
    while chunks[k].stop <= i
      invariant k < |chunks| && chunks[k].start <= i
      decreases |chunks| - k
    {
      k := k + 1;
    }
    forall k' | 0 <= k' < |chunks| && chunks[k'].start <= i < chunks[k'].stop ensures k' == k {
      if k' < k {
        StartsGrow(chunks, n, k', k);
      } else if k < k' {
        StartsGrow(chunks, n, k, k');
      }
    }
  }

  /** In a tiling, a later chunk starts no earlier than an earlier one stops. */
  lemma {:induction false} StartsGrow(chunks: seq<Chunk>, n: nat, a: nat, b: nat)
    requires Tiles(chunks, n) && a < b < |chunks|
    ensures chunks[a].stop <= chunks[b].start
    decreases b - a
  {
    if a + 1 < b {
      StartsGrow(chunks, n, a, b - 1);
    }
  }
}
