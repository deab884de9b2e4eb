/**
 * Prerequisite validity data and the watermark `TestSet.is_prereq_valid`
 * keeps into it, and the safety set `TestSet.get_safety_set` builds from the
 * prereq-list lines, optionally keeping only the timestamps at which the
 * prerequisite read as valid.
 */
module Validity {
  import opened Outcome
  import opened PyStr
  import opened Folds
  import opened Timelines
  import opened LogParse

  /**
   * The samples registered for one prereq ID: the times at which its
   * validity changed and the value (1 = valid) read at each.
   */
  datatype Stream = Stream(times: seq<Time>, values: seq<bool>)

  /** `prereq_validity_data`: prereq ID -> samples. */
  type ValidityData = map<string, Stream>

  /** `index_counter_dict`: prereq ID -> index of the current sample. */
  type Counters = map<string, nat>

  /**
   * `is_prereq_valid`: an unregistered prereq reads as not valid and
   * leaves the counters alone; otherwise the watermark moves forward by at
   * most one sample, only when the next sample time is not after `t`, and
   * the value at the resulting index is returned. The indexing the source
   * does without a guard raises exactly where Python would.
   */
  function IsPrereqValid(data: ValidityData, counters: Counters, t: Time, tag: string): (r: Result<(Counters, bool)>)
    ensures tag !in data ==> r == Ok((counters, false))
    ensures r.Err? ==> tag in data
    ensures tag in data && tag !in counters ==> r == Err(KeyError)
    ensures r.Ok? ==> r.value.0.Keys == counters.Keys
    ensures r.Ok? ==> forall k :: k in counters && k != tag ==> r.value.0[k] == counters[k]
    ensures r.Ok? && tag in data ==>
      var idx, idx' := counters[tag], r.value.0[tag];
      idx' < |data[tag].times| && idx' < |data[tag].values| && r.value.1 == data[tag].values[idx']
      && (idx' == idx + 1 <==> idx + 1 < |data[tag].times| && data[tag].times[idx + 1] <= t)
      && (idx' == idx || idx' == idx + 1)
    ensures tag in data && tag in counters ==>
      (r.Err? <==> (counters[tag] + 1 > |data[tag].times| || counters[tag] >= |data[tag].values|
                   || (counters[tag] + 1 < |data[tag].times| && data[tag].times[counters[tag] + 1] <= t
                       && counters[tag] + 1 >= |data[tag].values|)))
  {
    if tag !in data then Ok((counters, false))
    else if tag !in counters then Err(KeyError)
    else
      var times, idx := data[tag].times, counters[tag];
      var next: Result<nat> :=
        if idx == |times| - 1 then Ok(idx)
        else if idx + 1 >= |times| then Err(IndexError)
        else if t < times[idx + 1] then Ok(idx)
        else Ok(idx + 1);
      match next
      case Err(e) => Err(e)
      case Ok(i) =>
        if i < |data[tag].values| then Ok((counters[tag := i], data[tag].values[i])) else Err(IndexError)
  }

  /**
   * Samples 10/not valid, 20/valid, 30/not valid, asked at time 40 from the
   * first sample: the watermark moves to 20 only and reads "valid", although
   * the last sample before 40 says "not valid".
   */
  lemma OneStepPerCall()
    ensures IsPrereqValid(map["X" := Stream([10, 20, 30], [false, true, false])], map["X" := 0], 40, "X")
      == Ok((map["X" := 1], true))
  {
    var data := map["X" := Stream([10, 20, 30], [false, true, false])];
    assert data["X"].times[1] == 20;
    assert map["X" := 0]["X" := 1] == map["X" := 1];
  }

  // ------------------------------------------------------------ safety set

  /** What the loops have accumulated: the counters and the events, each carrying the validity read. */
  datatype Acc = Acc(counters: Counters, events: seq<Event>)

  /** The counter of a prereq ID is initialised to 0 the first time its segment is met. */
  function InitCounter(counters: Counters, tag: string): (c: Counters)
    ensures c.Keys == counters.Keys + {tag}
    ensures tag in counters ==> c == counters
    ensures tag !in counters ==> c[tag] == 0
  {
    if tag in counters then counters else counters[tag := 0]
  }

  /** The body of the box loop: read the validity, record the box with the value read. */
  function BoxStep(data: ValidityData, tag: string, t: Time): (Acc, string) -> Result<Acc>
  {
    (a: Acc, box: string) =>
      match IsPrereqValid(data, a.counters, t, tag)
      case Err(e) => Err(e)
      case Ok(cv) => Ok(Acc(cv.0, a.events + [Event(box, tag, t, cv.1)]))
  }

  /** The body of the segment loop: parse the provider, initialise its counter, run the box loop. */
  function SegStep(data: ValidityData, t: Time, modeledEq: Marker): (Acc, string) -> Result<Acc>
  {
    (a: Acc, seg: string) =>
      var tn := RefNames(seg, modeledEq);
      FoldResult(BoxStep(data, tn.0, t), Acc(InitCounter(a.counters, tn.0), a.events), tn.1)
  }

  /** The body of the line loop: only prereq-list lines, whose timestamp must parse. */
  function LineStep(data: ValidityData, modeledEq: Marker, parse: Parser): (Acc, string) -> Result<Acc>
  {
    (a: Acc, line: string) =>
      if !Contains(line, PREREQ_MACH_LIST) then Ok(a)
      else
        var segs := PrereqSegments(line, '}');
        match DateOf(FieldThenSlice, parse, segs[0])
        case Err(e) => Err(e)
        case Ok(t) => FoldResult(SegStep(data, t, modeledEq), a, segs[1..])
  }

  /** All the validity reads of a log, from empty counters. */
  function Reads(data: ValidityData, lines: seq<string>, modeledEq: Marker, parse: Parser): Result<Acc>
  {
    FoldResult(LineStep(data, modeledEq, parse), Acc(map[], []), lines)
  }

  /** An event as recorded without validity data: kept. */
  function Stamp(e: Event): Event
  {
    Event(e.box, e.tag, e.time, true)
  }

  /** The filter `validity_data == False or validity == True`. */
  function Filtered(validityFlag: bool, evs: seq<Event>): (r: seq<Event>)
    ensures |r| == |evs|
    ensures forall k :: 0 <= k < |r| ==> r[k] == Event(evs[k].box, evs[k].tag, evs[k].time, !validityFlag || evs[k].keep)
  {
    if evs == [] then []
    else
      var e := evs[|evs| - 1];
      Filtered(validityFlag, evs[..|evs| - 1]) + [Event(e.box, e.tag, e.time, !validityFlag || e.keep)]
  }

  /** `get_safety_set(validity_data)` with one provider segment at a time. */
  function SafetySet(data: ValidityData, validityFlag: bool, lines: seq<string>, modeledEq: Marker, parse: Parser): (r: Result<Timeline>)
    ensures r.Ok? <==> Reads(data, lines, modeledEq, parse).Ok?
  {
    match Reads(data, lines, modeledEq, parse)
    case Err(e) => Err(e)
    case Ok(a) => Ok(Build(Filtered(validityFlag, a.events)))
  }

  // -------------------------------------------------------------- properties

  /** A box loop over k boxes moves every watermark forward by at most k and removes none. */
  lemma {:induction false} BoxStepsAdvanceAtMost(data: ValidityData, tag: string, t: Time, a: Acc, names: seq<string>)
    requires FoldResult(BoxStep(data, tag, t), a, names).Ok?
    ensures var a' := FoldResult(BoxStep(data, tag, t), a, names).value;
      a'.counters.Keys == a.counters.Keys &&
      forall k :: k in a.counters ==> a.counters[k] <= a'.counters[k] <= a.counters[k] + |names|
  {
    if names != [] {
      var p := names[..|names| - 1];
      BoxStepsAdvanceAtMost(data, tag, t, a, p);
    }
  }

  lemma FilteredAppend(validityFlag: bool, x: seq<Event>, y: seq<Event>)
    ensures Filtered(validityFlag, x + y) == Filtered(validityFlag, x) + Filtered(validityFlag, y)
  {
  }

  /** The box loop records one event per box, in order, at the line's time, whatever was read. */
  lemma {:induction false} BoxStepsEvents(data: ValidityData, tag: string, t: Time, a: Acc, names: seq<string>)
    requires FoldResult(BoxStep(data, tag, t), a, names).Ok?
    ensures Filtered(false, FoldResult(BoxStep(data, tag, t), a, names).value.events)
      == Filtered(false, a.events) + BoxEvents(tag, names, t)
  {
    if names != [] {
      var p := names[..|names| - 1];
      BoxStepsEvents(data, tag, t, a, p);
      var b := FoldResult(BoxStep(data, tag, t), a, p).value;
      var last := names[|names| - 1];
      var cv := IsPrereqValid(data, b.counters, t, tag).value;
      assert FoldResult(BoxStep(data, tag, t), a, names).value.events == b.events + [Event(last, tag, t, cv.1)];
      FilteredAppend(false, b.events, [Event(last, tag, t, cv.1)]);
      assert Filtered(false, [Event(last, tag, t, cv.1)]) == [Event(last, tag, t, true)];
      assert BoxEvents(tag, names, t) == BoxEvents(tag, p, t) + [Event(names[|names| - 1], tag, t, true)];
    }
  }

  /** The segment loop records exactly the events of the scheduler script's segment loop. */
  lemma {:induction false} SegStepsEvents(data: ValidityData, t: Time, modeledEq: Marker, a: Acc, segs: seq<string>)
    requires FoldResult(SegStep(data, t, modeledEq), a, segs).Ok?
    ensures Filtered(false, FoldResult(SegStep(data, t, modeledEq), a, segs).value.events)
      == Filtered(false, a.events) + PrereqLineEvents(segs, t, modeledEq)
  {
    if segs != [] {
      var p := segs[..|segs| - 1];
      SegStepsEvents(data, t, modeledEq, a, p);
      var b := FoldResult(SegStep(data, t, modeledEq), a, p).value;
      var tn := RefNames(segs[|segs| - 1], modeledEq);
      var start := Acc(InitCounter(b.counters, tn.0), b.events);
      assert FoldResult(SegStep(data, t, modeledEq), a, segs) == FoldResult(BoxStep(data, tn.0, t), start, tn.1);
      BoxStepsEvents(data, tn.0, t, start, tn.1);
      var x, y, z := Filtered(false, a.events), PrereqLineEvents(p, t, modeledEq), BoxEvents(tn.0, tn.1, t);
      assert PrereqLineEvents(segs, t, modeledEq) == y + z;
      assert (x + y) + z == x + (y + z);
    }
  }

  /**
   * With every read ignored, the safety set records exactly the events of
   * the scheduler script's `getSafetySet` on the same log.
   */
  lemma {:induction false} ReadsMatchPrereqEvents(data: ValidityData, lines: seq<string>, modeledEq: Marker, parse: Parser)
    requires Reads(data, lines, modeledEq, parse).Ok?
    ensures PrereqEvents(lines, '}', modeledEq, parse) == Ok(Filtered(false, Reads(data, lines, modeledEq, parse).value.events))
  {
    if lines != [] {
      var p := lines[..|lines| - 1];
      ReadsMatchPrereqEvents(data, p, modeledEq, parse);
      var line := lines[|lines| - 1];
      if Contains(line, PREREQ_MACH_LIST) {
        var segs := PrereqSegments(line, '}');
        var t := DateOf(FieldThenSlice, parse, segs[0]).value;
        SegStepsEvents(data, t, modeledEq, Reads(data, p, modeledEq, parse).value, segs[1..]);
      }
    }
  }

  /** Without registered data nothing is read as valid and nothing can fail. */
  lemma {:induction false} BoxStepsNoData(tag: string, t: Time, a: Acc, names: seq<string>)
    ensures FoldResult(BoxStep(map[], tag, t), a, names).Ok?
    ensures FoldResult(BoxStep(map[], tag, t), a, names).value.counters == a.counters
    ensures forall e :: e in FoldResult(BoxStep(map[], tag, t), a, names).value.events ==> e in a.events || !e.keep
  {
    if names != [] {
      BoxStepsNoData(tag, t, a, names[..|names| - 1]);
    }
  }

  lemma {:induction false} SegStepsNoData(t: Time, modeledEq: Marker, a: Acc, segs: seq<string>)
    ensures FoldResult(SegStep(map[], t, modeledEq), a, segs).Ok?
    ensures forall e :: e in FoldResult(SegStep(map[], t, modeledEq), a, segs).value.events ==> e in a.events || !e.keep
  {
    if segs != [] {
      SegStepsNoData(t, modeledEq, a, segs[..|segs| - 1]);
      var b := FoldResult(SegStep(map[], t, modeledEq), a, segs[..|segs| - 1]).value;
      var tn := RefNames(segs[|segs| - 1], modeledEq);
      BoxStepsNoData(tn.0, t, Acc(InitCounter(b.counters, tn.0), b.events), tn.1);
    }
  }

  /** Without registered data, only an unreadable timestamp makes the safety set fail. */
  lemma {:induction false} ReadsNoData(lines: seq<string>, modeledEq: Marker, parse: Parser)
    ensures Reads(map[], lines, modeledEq, parse).Ok? <==> PrereqEvents(lines, '}', modeledEq, parse).Ok?
    ensures Reads(map[], lines, modeledEq, parse).Ok? ==>
      forall e :: e in Reads(map[], lines, modeledEq, parse).value.events ==> !e.keep
  {
    if lines != [] {
      var p := lines[..|lines| - 1];
      ReadsNoData(p, modeledEq, parse);
      var line := lines[|lines| - 1];
      if Reads(map[], p, modeledEq, parse).Ok? && Contains(line, PREREQ_MACH_LIST) {
        var segs := PrereqSegments(line, '}');
        if DateOf(FieldThenSlice, parse, segs[0]).Ok? {
          var t := DateOf(FieldThenSlice, parse, segs[0]).value;
          SegStepsNoData(t, modeledEq, Reads(map[], p, modeledEq, parse).value, segs[1..]);
        }
      }
    }
  }

  /**
   * `get_safety_set(False)` is the scheduler script's safety set; without
   * any validity data the two agree on every log, failures included.
   */
  lemma SafetySetWithoutValidity(data: ValidityData, lines: seq<string>, modeledEq: Marker, parse: Parser)
    ensures SafetySet(data, false, lines, modeledEq, parse).Ok? ==>
      PrereqEvents(lines, '}', modeledEq, parse).Ok? &&
      SafetySet(data, false, lines, modeledEq, parse).value == Build(PrereqEvents(lines, '}', modeledEq, parse).value)
    ensures data == map[] ==>
      (SafetySet(data, false, lines, modeledEq, parse).Ok? <==> PrereqEvents(lines, '}', modeledEq, parse).Ok?)
  {
    if Reads(data, lines, modeledEq, parse).Ok? {
      ReadsMatchPrereqEvents(data, lines, modeledEq, parse);
    }
    if data == map[] {
      ReadsNoData(lines, modeledEq, parse);
    }
  }

  /**
   * Filtering by validity changes only the timestamp lists: with and
   * without it the same boxes and the same prereq IDs under them appear.
   */
  lemma SafetySetKeysAgree(data: ValidityData, lines: seq<string>, modeledEq: Marker, parse: Parser)
    ensures SafetySet(data, true, lines, modeledEq, parse).Ok? == SafetySet(data, false, lines, modeledEq, parse).Ok?
    ensures SafetySet(data, true, lines, modeledEq, parse).Ok? ==>
      var on, off := SafetySet(data, true, lines, modeledEq, parse).value, SafetySet(data, false, lines, modeledEq, parse).value;
      on.Keys == off.Keys && forall b :: b in on ==> on[b].Keys == off[b].Keys
  {
    if Reads(data, lines, modeledEq, parse).Ok? {
      var evs := Reads(data, lines, modeledEq, parse).value.events;
      FilteredMentions(true, evs);
      FilteredMentions(false, evs);
      BuildKeys(Filtered(true, evs));
      BuildKeys(Filtered(false, evs));
    }
  }

  /** Filtering changes no event's box or prereq ID. */
  lemma FilteredMentions(validityFlag: bool, evs: seq<Event>)
    ensures forall b :: MentionsBox(Filtered(validityFlag, evs), b) <==> MentionsBox(evs, b)
    ensures forall b, l :: MentionsPair(Filtered(validityFlag, evs), b, l) <==> MentionsPair(evs, b, l)
  {
    var f := Filtered(validityFlag, evs);
    forall b, l ensures (MentionsBox(f, b) <==> MentionsBox(evs, b)) && (MentionsPair(f, b, l) <==> MentionsPair(evs, b, l)) {
      if MentionsBox(f, b) {
        var e :| e in f && e.box == b;
        var k :| 0 <= k < |f| && f[k] == e;
        assert evs[k] in evs;
      }
      if MentionsBox(evs, b) {
        var e :| e in evs && e.box == b;
        var k :| 0 <= k < |evs| && evs[k] == e;
        assert f[k] in f;
      }
      if MentionsPair(f, b, l) {
        var e :| e in f && e.box == b && e.tag == l;
        var k :| 0 <= k < |f| && f[k] == e;
        assert evs[k] in evs;
      }
      if MentionsPair(evs, b, l) {
        var e :| e in evs && e.box == b && e.tag == l;
        var k :| 0 <= k < |evs| && evs[k] == e;
        assert f[k] in f;
      }
    }
  }

  /**
   * Asked to keep only valid timestamps while no validity data is
   * registered, the safety set has every key but no timestamp at all.
   */
  lemma SafetySetNoDataKeepsNothing(lines: seq<string>, modeledEq: Marker, parse: Parser, box: string, tag: string)
    requires SafetySet(map[], true, lines, modeledEq, parse).Ok?
    ensures Lookup(SafetySet(map[], true, lines, modeledEq, parse).value, box, tag) == []
  {
    ReadsNoData(lines, modeledEq, parse);
    var evs := Reads(map[], lines, modeledEq, parse).value.events;
    BuildLookup(Filtered(true, evs), box, tag);
    TimesUnkept(Filtered(true, evs), box, tag);
  }
}
