/**
 * Recognising and cutting up scheduler log lines, as both
 * `scheduler_graph.py` and `test_set_viz.py` do it: the markers, the
 * timestamp text, the prerequisite-provider segments with their equipment
 * ref names, and the "<test> on <box>" segments of a running line.
 */
module LogParse {
  import opened Outcome
  import opened PyStr
  import opened Timelines
  import opened Seqs

  const PREREQ_ID := "updating prereq "
  const PREREQ_MACH := "<PrereqMachine: "
  const PREREQ_MACH_LIST := "{<PrereqMachine: "
  const RUNNING := "running = "
  const TO_RUN := "to run = "
  const FIELD_SEP := " - "
  const ON := " on "
  const REF_SEP := ">: "
  const MANUAL := "Manual"

  /** `datetime.strptime` on the sliced text: `None` when the text does not parse. */
  type Parser = string -> Option<Time>

  /** A non-empty separator, as the version-specific markers are. */
  type Marker = s: string | |s| > 0 witness "?"

  // ---------------------------------------------------------------- prereq IDs

  /** The prereq ID of an "updating prereq " line: everything after the first marker. */
  function PrereqLabel(line: string): (r: string)
    requires Contains(line, PREREQ_ID)
    ensures |r| + |PREREQ_ID| <= |line| && r == line[|line| - |r|..]
    ensures OccursAt(line, PREREQ_ID, |line| - |r| - |PREREQ_ID|)
    ensures forall j :: 0 <= j < |line| - |r| - |PREREQ_ID| ==> !OccursAt(line, PREREQ_ID, j)
  {
    line[Find(line, PREREQ_ID) + |PREREQ_ID|..]
  }

  /** The prereq IDs of the matching lines, one per line, in log order. */
  function PrereqLabels(lines: seq<string>): (r: seq<string>)
    ensures |r| <= |lines|
  {
    if lines == [] then []
    else
      var line := lines[|lines| - 1];
      PrereqLabels(lines[..|lines| - 1]) + (if Contains(line, PREREQ_ID) then [PrereqLabel(line)] else [])
  }

  /** `line` is an "updating prereq " line announcing `x`. */
  predicate Announces(line: string, x: string)
  {
    Contains(line, PREREQ_ID) && PrereqLabel(line) == x
  }

  lemma PrereqLabelsSnoc(lines: seq<string>, line: string)
    ensures PrereqLabels(lines + [line]) ==
      PrereqLabels(lines) + (if Contains(line, PREREQ_ID) then [PrereqLabel(line)] else [])
  {
    assert (lines + [line])[..|lines|] == lines;
  }

  /** One more log line adds its prereq ID to the distinct IDs exactly when it announces a new one. */
  lemma DedupLabelsStep(lines: seq<string>, i: nat)
    requires i < |lines|
    ensures var ids, line := Dedup(PrereqLabels(lines[..i])), lines[i];
      Dedup(PrereqLabels(lines[..i + 1])) ==
        if Contains(line, PREREQ_ID) && PrereqLabel(line) !in ids then ids + [PrereqLabel(line)] else ids
  {
    var labels, line := PrereqLabels(lines[..i]), lines[i];
    assert lines[..i + 1] == lines[..i] + [line];
    PrereqLabelsSnoc(lines[..i], line);
    if Contains(line, PREREQ_ID) {
      DedupSnoc(labels, PrereqLabel(line));
    } else {
      assert labels + [] == labels;
    }
  }

  /** A value is a prereq ID of the log exactly when some line announces it. */
  lemma {:induction false} PrereqLabelsMembers(lines: seq<string>)
    ensures forall x :: x in PrereqLabels(lines) <==> exists line :: line in lines && Announces(line, x)
  {
    if lines != [] {
      var p, l := lines[..|lines| - 1], lines[|lines| - 1];
      assert lines == p + [l];
      PrereqLabelsMembers(p);
      PrereqLabelsSnoc(p, l);
      forall x ensures x in PrereqLabels(lines) <==> exists line :: line in lines && Announces(line, x) {
        if exists line :: line in lines && Announces(line, x) {
          var line :| line in lines && Announces(line, x);
          assert line in p || line == l;
        }
        if x in PrereqLabels(p) {
          var line :| line in p && Announces(line, x);
          assert line in lines;
        } else if x in PrereqLabels(lines) {
          assert Announces(l, x) && l in lines;
        }
      }
    }
  }

  // ---------------------------------------------------------------- timestamps

  /**
   * The text `scheduler_graph.getDateTime` parses: field 1 of the `" - "`
   * split with its last 6 characters (the time-zone offset) cut off. A line
   * without `" - "` has no field 1 (IndexError).
   */
  function FieldDateText(s: string): (r: Result<string>)
    ensures r.Err? <==> !Contains(s, FIELD_SEP)
    ensures r.Err? ==> r.error == IndexError
  {
    var fields := Split(s, FIELD_SEP);
    if |fields| < 2 then Err(IndexError) else Ok(DropLast(fields[1], 6))
  }

  /** A first field free of `" - "`, as `FirstSepAt` demands, ends where the separator starts. */
  predicate FirstSepAt(a: string)
  {
    Find(a + FIELD_SEP, FIELD_SEP) == |a|
  }

  /**
   * Round trip: writing "<prefix> - <stamp><6-char offset> - <rest>" and
   * extracting gives back exactly the stamp.
   */
  lemma FieldDateTextRoundTrip(pre: string, stamp: string, zone: string, rest: string)
    requires FirstSepAt(pre) && FirstSepAt(stamp + zone) && |zone| == 6
    ensures FieldDateText(pre + FIELD_SEP + stamp + zone + FIELD_SEP + rest) == Ok(stamp)
  {
    var tail := stamp + zone + FIELD_SEP + rest;
    assert pre + FIELD_SEP + stamp + zone + FIELD_SEP + rest == pre + FIELD_SEP + tail;
    SplitAfterFirst(pre, FIELD_SEP, tail);
    SplitAfterFirst(stamp + zone, FIELD_SEP, rest);
    assert (stamp + zone)[..|stamp + zone| - 6] == stamp;
  }

  /** Which text a `getDateTime` parses: field 1 then slice (scheduler_graph), or the slice alone (TestSet). */
  datatype DateStyle = FieldThenSlice | SliceOnly

  /** A `getDateTime` call: the text it slices out, parsed (ValueError when it does not parse). */
  function DateOf(style: DateStyle, parse: Parser, s: string): (r: Result<Time>)
    ensures style == SliceOnly ==> (r.Ok? <==> parse(DropLast(s, 6)).Some?)
    ensures r.Ok? && style == SliceOnly ==> r.value == parse(DropLast(s, 6)).value
    ensures style == FieldThenSlice && !Contains(s, FIELD_SEP) ==> r == Err(IndexError)
  {
    var text := if style == FieldThenSlice then FieldDateText(s) else Ok(DropLast(s, 6));
    match text
    case Err(e) => Err(e)
    case Ok(txt) =>
      match parse(txt)
      case None => Err(ValueError)
      case Some(t) => Ok(t)
  }

  // ---------------------------------------------------------- prereq segments

  /**
   * A prereq-list line cut into segments: strip '{' on the left and `closer`
   * on the right, split on "<PrereqMachine: ". Segment 0 holds the timestamp.
   */
  function PrereqSegments(line: string, closer: char): (segs: seq<string>)
    ensures |segs| >= 1
  {
    Split(RStrip(LStrip(line, {'{'}), {closer}), PREREQ_MACH)
  }

  /** The bracketed equipment text of a provider segment: after ">: ", without ", " at the end, then `[1:-1]`. */
  function EquipmentText(seg: string): string
  {
    Inner(RStrip(Partition(seg, REF_SEP).2, Chars(", ")))
  }

  /**
   * `get_ref_names` / `getRefNames`: the prereq ID before ">: " and the
   * equipment ref names, or ["Manual"] when the equipment list is empty.
   */
  function RefNames(seg: string, modeledEq: string): (r: (string, seq<string>))
    requires |modeledEq| > 0
    ensures r.0 + REF_SEP <= seg || (r.0 == seg && !Contains(seg, REF_SEP))
    ensures !Contains(r.0, REF_SEP)
    ensures |r.1| >= 1
    ensures EquipmentText(seg) == "" ==> r.1 == [MANUAL]
    ensures !Contains(seg, REF_SEP) ==> r.1 == [MANUAL]
    ensures EquipmentText(seg) != "" ==>
      forall k :: 0 <= k < |r.1| ==> ' ' !in r.1[k] && '>' !in r.1[k] && ',' !in r.1[k]
    ensures EquipmentText(seg) != "" ==>
      forall k, c :: 0 <= k < |r.1| && c in r.1[k] ==> c in EquipmentText(seg)
  {
    var (prereqID, _, _) := Partition(seg, REF_SEP);
    var equipments := EquipmentText(seg);
    if |equipments| == 0 then
      (prereqID, [MANUAL])
    else
      var noEq := Replace(equipments, modeledEq, "");
      var noAngle := Replace(noEq, ">", "");
      var noSpace := Replace(noAngle, " ", "");
      var names := Split(noSpace, ",");
      RemoveKeepsChars(equipments, modeledEq);
      RemoveKeepsChars(noEq, ">");
      RemoveKeepsChars(noAngle, " ");
      RemoveCharGone(noEq, '>');
      RemoveCharGone(noAngle, ' ');
      SplitChars(noSpace, ",");
      forall k | 0 <= k < |names| ensures ',' !in names[k] { ContainsChar(names[k], ','); }
      (prereqID, names)
  }

  // ------------------------------------------------------------ running lines

  /**
   * A running (or to-run) line cut into segments: strip '[' and ']', drop
   * every ", ", split on the state-machine marker. Segment 0 holds the timestamp.
   */
  function RunningSegments(line: string, stateMachine: string): (segs: seq<string>)
    requires |stateMachine| > 0
    ensures |segs| >= 1
  {
    Split(Replace(RStrip(LStrip(line, {'['}), {']'}), ", ", ""), stateMachine)
  }

  /** `seg.partition(' on ')`: (test, box); a segment without " on " is all test and box "". */
  function TestOnBox(seg: string): (r: (string, string))
    ensures Contains(seg, ON) ==> seg == r.0 + ON + r.1 && !Contains(r.0, ON)
    ensures !Contains(seg, ON) ==> r == (seg, "")
  {
    var (test, _, box) := Partition(seg, ON);
    (test, box)
  }

  // ------------------------------------------------------------------- events

  /** One kept event per box of a provider segment. */
  function BoxEvents(tag: string, names: seq<string>, t: Time): (es: seq<Event>)
    ensures |es| == |names|
    ensures forall k :: 0 <= k < |es| ==> es[k] == Event(names[k], tag, t, true)
  {
    if names == [] then []
    else BoxEvents(tag, names[..|names| - 1], t) + [Event(names[|names| - 1], tag, t, true)]
  }

  /** The events of a prereq-list line's provider segments, segment by segment, box by box. */
  function PrereqLineEvents(segs: seq<string>, t: Time, modeledEq: string): (es: seq<Event>)
    requires |modeledEq| > 0
  {
    if segs == [] then []
    else
      var (tag, names) := RefNames(segs[|segs| - 1], modeledEq);
      PrereqLineEvents(segs[..|segs| - 1], t, modeledEq) + BoxEvents(tag, names, t)
  }

  /** The number of ref names the provider segments yield. */
  function RefNameCount(segs: seq<string>, modeledEq: string): nat
    requires |modeledEq| > 0
  {
    if segs == [] then 0
    else RefNameCount(segs[..|segs| - 1], modeledEq) + |RefNames(segs[|segs| - 1], modeledEq).1|
  }

  /** A prereq-list line records one timestamp per ref name parsed, and at least one per segment. */
  lemma {:induction false} PrereqLineEventCount(segs: seq<string>, t: Time, modeledEq: string)
    requires |modeledEq| > 0
    ensures |PrereqLineEvents(segs, t, modeledEq)| == RefNameCount(segs, modeledEq) >= |segs|
    ensures forall e :: e in PrereqLineEvents(segs, t, modeledEq) ==> e.time == t && e.keep
  {
    if segs != [] {
      PrereqLineEventCount(segs[..|segs| - 1], t, modeledEq);
    }
  }

  /** The events of a running line's "<test> on <box>" segments, in order. */
  function RunningLineEvents(segs: seq<string>, t: Time): (es: seq<Event>)
    ensures |es| == |segs|
    ensures forall k :: 0 <= k < |es| ==>
      es[k] == Event(TestOnBox(segs[k]).1, TestOnBox(segs[k]).0, t, true)
  {
    seq(|segs|, k requires 0 <= k < |segs| => Event(TestOnBox(segs[k]).1, TestOnBox(segs[k]).0, t, true))
  }

  lemma RunningLineEventsPrefix(segs: seq<string>, t: Time, j: nat)
    requires j < |segs|
    ensures RunningLineEvents(segs[..j + 1], t) ==
      RunningLineEvents(segs[..j], t) + [Event(TestOnBox(segs[j]).1, TestOnBox(segs[j]).0, t, true)]
  {
    var a, b := RunningLineEvents(segs[..j + 1], t), RunningLineEvents(segs[..j], t);
    assert forall k :: 0 <= k < j ==> a[k] == b[k];
  }

  /**
   * The prereq-list lines of a log turned into events, stopping at the first
   * line whose timestamp cannot be read (closing brace `closer` stripped):
   * IndexError without a date field, ValueError when the date does not parse.
   */
  function PrereqEvents(lines: seq<string>, closer: char, modeledEq: string, parse: Parser): (r: Result<seq<Event>>)
    requires |modeledEq| > 0
    ensures r.Err? ==> r.error == IndexError || r.error == ValueError
  {
    if lines == [] then Ok([])
    else
      match PrereqEvents(lines[..|lines| - 1], closer, modeledEq, parse)
      case Err(e) => Err(e)
      case Ok(evs) =>
        var line := lines[|lines| - 1];
        if !Contains(line, PREREQ_MACH_LIST) then Ok(evs)
        else
          var segs := PrereqSegments(line, closer);
          match DateOf(FieldThenSlice, parse, segs[0])
          case Err(e) => Err(e)
          case Ok(t) => Ok(evs + PrereqLineEvents(segs[1..], t, modeledEq))
  }

  /** The timeline a prereq-list fold builds, or its failure. */
  function PrereqTimeline(r: Result<seq<Event>>): Result<Timeline>
  {
    match r
    case Err(e) => Err(e)
    case Ok(evs) => Ok(Build(evs))
  }

  lemma PrereqEventsErrStep(lines: seq<string>, line: string, closer: char, modeledEq: string, parse: Parser)
    requires |modeledEq| > 0 && PrereqEvents(lines, closer, modeledEq, parse).Err?
    ensures PrereqEvents(lines + [line], closer, modeledEq, parse) == PrereqEvents(lines, closer, modeledEq, parse)
  {
    assert (lines + [line])[..|lines|] == lines;
  }

  /** Once a prefix of the log fails, the whole log fails the same way. */
  lemma {:induction false} PrereqEventsErrSticks(lines: seq<string>, i: nat, closer: char, modeledEq: string, parse: Parser)
    requires |modeledEq| > 0 && i <= |lines|
    requires PrereqEvents(lines[..i], closer, modeledEq, parse).Err?
    ensures PrereqEvents(lines, closer, modeledEq, parse) == PrereqEvents(lines[..i], closer, modeledEq, parse)
    decreases |lines| - i
  {
    if i < |lines| {
      assert lines[..i + 1] == lines[..i] + [lines[i]];
      PrereqEventsErrStep(lines[..i], lines[i], closer, modeledEq, parse);
      PrereqEventsErrSticks(lines, i + 1, closer, modeledEq, parse);
    } else {
      assert lines[..i] == lines;
    }
  }

  /** A log without prereq-list lines yields no events and cannot fail. */
  lemma {:induction false} PrereqEventsNone(lines: seq<string>, closer: char, modeledEq: string, parse: Parser)
    requires |modeledEq| > 0
    requires forall x :: x in lines ==> !Contains(x, PREREQ_MACH_LIST)
    ensures PrereqEvents(lines, closer, modeledEq, parse) == Ok([])
  {
    if lines != [] {
      var p := lines[..|lines| - 1];
      assert forall x :: x in p ==> x in lines;
      PrereqEventsNone(p, closer, modeledEq, parse);
    }
  }

  /**
   * One line of the running-line loop: after a failure nothing changes; a
   * running line adds its events, or stops the loop when its timestamp
   * cannot be read.
   */
  function RunningStep(acc: (seq<Event>, Option<PyError>), line: string, stateMachine: string, style: DateStyle, parse: Parser): (r: (seq<Event>, Option<PyError>))
    requires |stateMachine| > 0
  {
    var (evs, err) := acc;
    if err.Some? || !Contains(line, RUNNING) then acc
    else
      var segs := RunningSegments(line, stateMachine);
      match DateOf(style, parse, segs[0])
      case Err(e) => (evs, Some(e))
      case Ok(t) => (evs + RunningLineEvents(segs[1..], t), None)
  }

  /**
   * The running lines of a log turned into events: the events of the lines
   * read before the first failing timestamp, and that failure if any.
   */
  function RunningFold(lines: seq<string>, stateMachine: string, style: DateStyle, parse: Parser): (r: (seq<Event>, Option<PyError>))
    requires |stateMachine| > 0
  {
    if lines == [] then ([], None)
    else RunningStep(RunningFold(lines[..|lines| - 1], stateMachine, style, parse), lines[|lines| - 1], stateMachine, style, parse)
  }

  lemma RunningFoldPrefix(lines: seq<string>, i: nat, stateMachine: string, style: DateStyle, parse: Parser)
    requires |stateMachine| > 0 && i < |lines|
    ensures RunningFold(lines[..i + 1], stateMachine, style, parse) ==
      RunningStep(RunningFold(lines[..i], stateMachine, style, parse), lines[i], stateMachine, style, parse)
  {
    assert lines[..i + 1][..i] == lines[..i];
  }

  /** The timeline a running-line fold builds, or the failure that stopped it. */
  function RunningTimeline(f: (seq<Event>, Option<PyError>)): Result<Timeline>
  {
    if f.1.Some? then Err(f.1.value) else Ok(Build(f.0))
  }

  lemma {:induction false} RunningFoldErrSticks(lines: seq<string>, i: nat, stateMachine: string, style: DateStyle, parse: Parser)
    requires |stateMachine| > 0 && i <= |lines|
    requires RunningFold(lines[..i], stateMachine, style, parse).1.Some?
    ensures RunningFold(lines, stateMachine, style, parse) == RunningFold(lines[..i], stateMachine, style, parse)
    decreases |lines| - i
  {
    if i < |lines| {
      assert lines[..i + 1][..i] == lines[..i];
      RunningFoldErrSticks(lines, i + 1, stateMachine, style, parse);
    } else {
      assert lines[..i] == lines;
    }
  }

  /** Every event of a running line is kept and carries that line's timestamp. */
  lemma {:induction false} RunningFoldKeepsAll(lines: seq<string>, stateMachine: string, style: DateStyle, parse: Parser)
    requires |stateMachine| > 0
    ensures forall e :: e in RunningFold(lines, stateMachine, style, parse).0 ==> e.keep
  {
    if lines != [] {
      RunningFoldKeepsAll(lines[..|lines| - 1], stateMachine, style, parse);
    }
  }
}
