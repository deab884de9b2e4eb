/**
 * The bookkeeping both files do before plotting: the sorted list of boxes,
 * the number of label rows each box needs, the row band of each box and the
 * colour of each label. `test_set_viz.py` and `scheduler_graph.py` carry
 * the same code under different names; it is modelled once here.
 */
module Layout {
  import opened Outcome
  import opened Seqs
  import opened Timelines

  /** `get_box_list` / `getBoxList`: every key of either dict, once, in `str` order. */
  method GetBoxList(pDict: Timeline, tDict: Timeline) returns (sortedRefNames: seq<string>)
    ensures StrictlySorted(sortedRefNames)
    ensures forall b :: b in sortedRefNames <==> b in pDict || b in tDict
  {
    var refNames: seq<string> := [];
    var rest := pDict.Keys;
    while rest != {}
      invariant rest <= pDict.Keys
      invariant NoDups(refNames)
      invariant forall b :: b in refNames <==> b in pDict && b !in rest
      decreases |rest|
    {
      var b :| b in rest;
      refNames := refNames + [b];
      rest := rest - {b};
    }
    var entries := tDict.Keys;
    while entries != {}
      invariant entries <= tDict.Keys
      invariant NoDups(refNames)
      invariant forall b :: b in refNames <==> b in pDict || (b in tDict && b !in entries)
      decreases |entries|
    {
      var entry :| entry in entries;
      if entry !in refNames {
        refNames := refNames + [entry];
      }
      entries := entries - {entry};
    }
    sortedRefNames := SortNames(refNames);
  }

  /** The number of labels (not timestamps) a dict holds for a box. */
  function LabelCount(d: Timeline, box: string): nat
  {
    if box in d then |d[box]| else 0
  }

  /** A key of either dict that is missing from the name list. */
  ghost predicate HasStrayBox(refNames: seq<string>, pDict: Timeline, tDict: Timeline)
  {
    exists b :: (b in pDict || b in tDict) && b !in refNames
  }

  /**
   * `count_box_instances` / `countBoxInstances`: for every listed box, the
   * number of labels both dicts hold for it; a dict key that is not listed
   * raises KeyError.
   */
  method CountBoxInstances(refNames: seq<string>, pDict: Timeline, tDict: Timeline) returns (r: Result<map<string, nat>>)
    ensures r.Err? <==> HasStrayBox(refNames, pDict, tDict)
    ensures r.Err? ==> r.error == KeyError
    ensures r.Ok? ==> forall b :: b in r.value <==> b in refNames
    ensures r.Ok? ==> forall b :: b in r.value ==> r.value[b] == LabelCount(pDict, b) + LabelCount(tDict, b)
  {
    var instances: map<string, nat> := map b | b in refNames :: 0;
    var afterP := AddLabelCounts(instances, pDict);
    if afterP.Err? {
      return afterP;
    }
    r := AddLabelCounts(afterP.value, tDict);
  }

  /** `for box in d.keys(): instances[box] += len(d[box])`. */
  method AddLabelCounts(instances: map<string, nat>, d: Timeline) returns (r: Result<map<string, nat>>)
    ensures r.Err? <==> exists b :: b in d && b !in instances
    ensures r.Err? ==> r.error == KeyError
    ensures r.Ok? ==> r.value.Keys == instances.Keys
    ensures r.Ok? ==> forall b :: b in r.value ==> r.value[b] == instances[b] + LabelCount(d, b)
  {
    var acc := instances;
    var rest := d.Keys;
    while rest != {}
      invariant rest <= d.Keys
      invariant acc.Keys == instances.Keys
      invariant forall b :: b in d && b !in rest ==> b in instances
      invariant forall b :: b in acc ==> acc[b] == instances[b] + Done(d, rest, b)
      decreases |rest|
    {
      var box :| box in rest;
      if box !in acc {
        return Err(KeyError);
      }
      acc := acc[box := acc[box] + |d[box]|];
      rest := rest - {box};
    }
    r := Ok(acc);
  }

  /** The labels of `box` already counted when the keys in `rest` are still to come. */
  function Done(d: Timeline, rest: set<string>, box: string): nat
  {
    if box in d && box !in rest then |d[box]| else 0
  }

  /**
   * The row band of a box: y = `row` + offsets, one offset per tick. The
   * offsets themselves (`numpy.linspace(0.2, 0.8, ticks)`) are floats and are
   * not modelled; only their number is.
   */
  datatype AxisBand = AxisBand(row: nat, ticks: nat)

  /**
   * `map_boxes_to_y_axis` / `mapBoxesToAxis`: the i-th name gets row i + 1
   * (a repeated name keeps its last row) and as many ticks as the box with
   * the most labels needs. A stray dict key raises KeyError; an empty name
   * list leaves `max` nothing to take (ValueError).
   */
  method MapBoxesToAxis(sortedRefNames: seq<string>, pDict: Timeline, tDict: Timeline) returns (r: Result<map<string, AxisBand>>)
    ensures HasStrayBox(sortedRefNames, pDict, tDict) ==> r == Err(KeyError)
    ensures !HasStrayBox(sortedRefNames, pDict, tDict) && sortedRefNames == [] ==> r == Err(ValueError)
    ensures r.Ok? <==> !HasStrayBox(sortedRefNames, pDict, tDict) && sortedRefNames != []
    ensures r.Ok? ==> forall b :: b in r.value <==> b in sortedRefNames
    ensures r.Ok? ==> forall i :: 0 <= i < |sortedRefNames| && sortedRefNames[i] !in sortedRefNames[i + 1..] ==>
      r.value[sortedRefNames[i]].row == i + 1
    ensures r.Ok? ==> forall b :: b in r.value ==>
      r.value[b].ticks == r.value[sortedRefNames[0]].ticks
      && LabelCount(pDict, b) + LabelCount(tDict, b) <= r.value[b].ticks
    ensures r.Ok? ==>
      (exists b :: b in sortedRefNames && LabelCount(pDict, b) + LabelCount(tDict, b) == r.value[sortedRefNames[0]].ticks)
  {
    var counts := CountBoxInstances(sortedRefNames, pDict, tDict);
    if counts.Err? {
      return Err(counts.error);
    }
    var yticksNum := counts.value;
    if |sortedRefNames| == 0 {
      return Err(ValueError);
    }
    var maxTicks := MaxCount(sortedRefNames, yticksNum);
    var yticksVals := AssignRows(sortedRefNames, maxTicks);
    r := Ok(yticksVals);
  }

  /** `max(yticks_num.values())` over a non-empty name list. */
  method MaxCount(names: seq<string>, counts: map<string, nat>) returns (maxTicks: nat)
    requires names != [] && forall b :: b in names ==> b in counts
    ensures forall b :: b in names ==> counts[b] <= maxTicks
    ensures exists b :: b in names && counts[b] == maxTicks
  {
    maxTicks := counts[names[0]];
    var i := 1;
    while i < |names|
      invariant 1 <= i <= |names|
      invariant forall j :: 0 <= j < i ==> counts[names[j]] <= maxTicks
      invariant exists j :: 0 <= j < i && counts[names[j]] == maxTicks
    {
      if counts[names[i]] > maxTicks {
        maxTicks := counts[names[i]];
      }
      i := i + 1;
    }
  }

  /** No later position before `k` repeats the value at `j`. */
  predicate LastBefore(s: seq<string>, j: int, k: int)
    requires 0 <= j < |s| && k <= |s|
  {
    forall m :: j < m < k ==> s[m] != s[j]
  }

  /** The loop with `counter` from 1: each name gets its position plus one and `maxTicks` ticks. */
  method AssignRows(names: seq<string>, maxTicks: nat) returns (yticksVals: map<string, AxisBand>)
    ensures forall b :: b in yticksVals <==> b in names
    ensures forall b :: b in yticksVals ==> yticksVals[b].ticks == maxTicks
    ensures forall i :: 0 <= i < |names| && names[i] !in names[i + 1..] ==> yticksVals[names[i]].row == i + 1
  {
    yticksVals := map[];
    var counter := 1;
    var i := 0;
    while i < |names|
      invariant 0 <= i <= |names| && counter == i + 1
      invariant forall b :: b in yticksVals <==> b in names[..i]
      invariant forall b :: b in yticksVals ==> yticksVals[b].ticks == maxTicks
      invariant forall j :: 0 <= j < i && LastBefore(names, j, i) ==> yticksVals[names[j]].row == j + 1
    {
      var name := names[i];
      yticksVals := yticksVals[name := AxisBand(counter, maxTicks)];
      assert names[..i + 1] == names[..i] + [name];
      counter := counter + 1;
      i := i + 1;
    }
    assert names[..i] == names;
    forall j | 0 <= j < |names| && names[j] !in names[j + 1..]
      ensures LastBefore(names, j, |names|)
    {
      forall m | j < m < |names| ensures names[m] != names[j] {
        assert names[m] == names[j + 1..][m - j - 1];
      }
    }
  }

  /** `k` copies of the palette, end to end. */
  function Repeat(formats: seq<string>, k: nat): (r: seq<string>)
    ensures |r| == |formats| * k
    ensures forall i :: 0 <= i < |r| ==> r[i] == formats[i % |formats|]
  {
    if k == 0 then []
    else
      var rest := Repeat(formats, k - 1);
      assert |formats| * k == |formats| + |formats| * (k - 1);
      forall i | 0 <= i < |formats| + |rest| ensures (formats + rest)[i] == formats[i % |formats|] {
        if i < |formats| {
          ModUnique(i, |formats|, 0, i);
        } else {
          assert (formats + rest)[i] == rest[i - |formats|] == formats[(i - |formats|) % |formats|];
          ModShift(i, |formats|);
        }
      }
      formats + rest
  }

  lemma ModShift(i: int, n: int)
    requires n > 0 && i >= n
    ensures (i - n) % n == i % n
  {
    ModUnique(i - n, n, i / n - 1, i % n);
  }

  /** Euclidean division has one remainder. */
  lemma ModUnique(a: int, n: int, q: int, rem: int)
    requires n > 0 && 0 <= rem < n && a == n * q + rem
    ensures a % n == rem
  {
    var q2, r2 := a / n, a % n;
    assert n * (q - q2) == r2 - rem;
    if q - q2 >= 1 {
      MulAtLeast(n, q - q2);
    } else if q2 - q >= 1 {
      assert n * (q2 - q) == -(n * (q - q2));
      MulAtLeast(n, q2 - q);
    }
  }

  lemma {:induction false} MulAtLeast(n: int, m: int)
    requires n > 0 && m >= 1
    ensures n * m >= n
    decreases m
  {
    if m > 1 {
      MulAtLeast(n, m - 1);
      assert n * m == n * (m - 1) + n;
    }
  }

  /** `dict(zip(keys, values))`: a key listed twice keeps its last value. */
  function ZipToMap(keys: seq<string>, values: seq<string>): (m: map<string, string>)
    requires |keys| <= |values|
    ensures forall k :: k in m <==> k in keys
    ensures forall i :: 0 <= i < |keys| && keys[i] !in keys[i + 1..] ==> m[keys[i]] == values[i]
  {
    if keys == [] then map[]
    else
      var m := ZipToMap(keys[1..], values[1..]);
      assert forall k :: k in keys <==> k == keys[0] || k in keys[1..] by {
        assert keys == [keys[0]] + keys[1..];
      }
      forall i | 1 <= i < |keys| && keys[i] !in keys[i + 1..] ensures m[keys[i]] == values[i] {
        assert keys[1..][i - 1] == keys[i] && keys[1..][i..] == keys[i + 1..];
      }
      if keys[0] in m then m else m[keys[0] := values[0]]
  }

  /**
   * `map_items_to_plot_color`: the palette repeated `len(items) / len(formats)`
   * more times, zipped with the items, so the item at position i gets
   * `formats[i % len(formats)]`. An empty palette divides by zero.
   */
  function MapItemsToPlotColor(items: seq<string>, formats: seq<string>): (r: Result<map<string, string>>)
    ensures r.Err? <==> formats == []
    ensures r.Err? ==> r.error == ZeroDivisionError
    ensures r.Ok? ==> forall x :: x in r.value <==> x in items
    ensures r.Ok? ==> forall i :: 0 <= i < |items| && items[i] !in items[i + 1..] ==>
      r.value[items[i]] == formats[i % |formats|]
  {
    if formats == [] then Err(ZeroDivisionError)
    else
      var extend := |items| / |formats|;
      var colorList := Repeat(formats, extend + 1);
      PaletteCoversItems(|items|, |formats|);
      Ok(ZipToMap(items, colorList))
  }

  /** The repeated palette is never shorter than the item list. */
  lemma PaletteCoversItems(n: nat, f: nat)
    requires f > 0
    ensures f * (n / f + 1) >= n
  {
  }
}
