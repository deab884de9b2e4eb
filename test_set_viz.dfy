/**
 * The class `TestSet` of `test_set_viz.py`: a test log read once at
 * construction, the validity data and the result records that its setters
 * and `get_test_set` fill in, and the loops that turn the log into the
 * prereq IDs, the safety set, the test set, the test list and the test count.
 */
module TestSetViz {
  import opened Outcome
  import opened PyStr
  import opened Seqs
  import opened Folds
  import opened Timelines
  import opened LogParse
  import opened Validity
  import opened TestSetSpec

  /** The loop state (index counters, safety-set dict) is what the accumulator `a` denotes. */
  predicate Mirrors(validityData: bool, state: (Counters, Timeline), a: Acc)
  {
    state.0 == a.counters && state.1 == Build(Filtered(validityData, a.events))
  }

  /** A loop ends as its fold does: the same exception, or the state the final accumulator denotes. */
  predicate Follows(validityData: bool, r: Result<(Counters, Timeline)>, f: Result<Acc>)
  {
    match f
    case Err(e) => r == Err(e)
    case Ok(a) => r.Ok? && Mirrors(validityData, r.value, a)
  }

  class TestSet {
    /** `test_log_list`: the lines of the log, as read by the constructor. */
    const testLog: seq<string>
    const version: Version
    /** `STATE_MACHINE` and `MODELED_EQ`, looked up by version. */
    const stateMachine: Marker
    const modeledEq: Marker
    /** `strptime` with `TIME_FORMAT`: the time a text denotes, or None (ValueError). */
    const parse: Parser
    /** `strptime` with `PREREQ_TIME_FORMAT`. */
    const parsePrereqTime: Parser

    var prereqValidityData: ValidityData
    var testResultDict: Results

    constructor (testLog: seq<string>, version: Version, parse: Parser, parsePrereqTime: Parser)
      ensures this.testLog == testLog && this.version == version
      ensures stateMachine == StateMachineOf(version) && modeledEq == ModeledEqOf(version)
      ensures this.parse == parse && this.parsePrereqTime == parsePrereqTime
      ensures prereqValidityData == map[] && testResultDict == map[]
    {
      this.testLog := testLog;
      this.version := version;
      stateMachine := StateMachineOf(version);
      modeledEq := ModeledEqOf(version);
      this.parse := parse;
      this.parsePrereqTime := parsePrereqTime;
      prereqValidityData := map[];
      testResultDict := map[];
    }

    /** `get_prereq_IDs`: the distinct prereq IDs of the log, in the order they first appear. */
    method GetPrereqIDs() returns (prereqIDs: seq<string>)
      ensures prereqIDs == Dedup(PrereqLabels(testLog))
    {
      prereqIDs := [];
      var i := 0;
      assert testLog[..0] == [];
      while i < |testLog|
        invariant 0 <= i <= |testLog|
        invariant prereqIDs == Dedup(PrereqLabels(testLog[..i]))
      {
        var entry := testLog[i];
        DedupLabelsStep(testLog, i);
        if Contains(entry, PREREQ_ID) {
          var prereq := PrereqLabel(entry);
          if prereq !in prereqIDs {
            prereqIDs := prereqIDs + [prereq];
          }
        }
        i := i + 1;
      }
      assert testLog[..i] == testLog;
    }

    /** `is_prereq_valid`, step by step: the guard, the elif chain on the watermark, the read. */
    method IsPrereqValid(indexCounterDict: Counters, dateTime: Time, prereqID: string) returns (r: Result<(Counters, bool)>)
      ensures r == Validity.IsPrereqValid(prereqValidityData, indexCounterDict, dateTime, prereqID)
    {
      if prereqID !in prereqValidityData {
        return Ok((indexCounterDict, false));
      }
      var timeList := prereqValidityData[prereqID].times;
      if prereqID !in indexCounterDict {
        return Err(KeyError);
      }
      var counters := indexCounterDict;
      if counters[prereqID] == |timeList| - 1 {
        assert counters == counters[prereqID := counters[prereqID]];
      } else if counters[prereqID] + 1 >= |timeList| {
        return Err(IndexError);
      } else if dateTime < timeList[counters[prereqID] + 1] {
        assert counters == counters[prereqID := counters[prereqID]];
      } else {
        counters := counters[prereqID := counters[prereqID] + 1];
      }
      var values := prereqValidityData[prereqID].values;
      if counters[prereqID] >= |values| {
        return Err(IndexError);
      }
      r := Ok((counters, values[counters[prereqID]]));
    }

    /** One pass of the box loop: read the validity, get-or-create `[box][prereq_ID]`, append when kept. */
    method SafetyBox(validityData: bool, prereqID: string, box: string, t: Time,
                     state: (Counters, Timeline), ghost a: Acc)
      returns (r: Result<(Counters, Timeline)>)
      requires Mirrors(validityData, state, a)
      ensures Follows(validityData, r, BoxStep(prereqValidityData, prereqID, t)(a, box))
    {
      var read := IsPrereqValid(state.0, t, prereqID);
      if read.Err? {
        return Err(read.error);
      }
      var kept := Event(box, prereqID, t, !validityData || read.value.1);
      var safetySetDict := RecordEvent(state.1, kept);
      ghost var e := Event(box, prereqID, t, read.value.1);
      FilteredAppend(validityData, a.events, [e]);
      assert Filtered(validityData, [e]) == [kept];
      BuildSnoc(Filtered(validityData, a.events), kept);
      r := Ok((read.value.0, safetySetDict));
    }

    /**
     * The box loop of `get_safety_set` for one provider: read the validity,
     * get-or-create `[box][prereq_ID]`, append when validity is not asked
     * for or was read as valid.
     */
    method SafetyBoxes(validityData: bool, prereqID: string, boxNames: seq<string>, t: Time,
                       state: (Counters, Timeline), ghost a: Acc)
      returns (r: Result<(Counters, Timeline)>)
      requires Mirrors(validityData, state, a)
      ensures Follows(validityData, r, FoldResult(BoxStep(prereqValidityData, prereqID, t), a, boxNames))
    {
      var cur := state;
      ghost var acc := a;
      for k := 0 to |boxNames|
        invariant FoldResult(BoxStep(prereqValidityData, prereqID, t), a, boxNames[..k]) == Ok(acc)
        invariant Mirrors(validityData, cur, acc)
      {
        FoldPrefix(BoxStep(prereqValidityData, prereqID, t), a, boxNames, k);
        var res := SafetyBox(validityData, prereqID, boxNames[k], t, cur, acc);
        if res.Err? {
          FoldErrSticks(BoxStep(prereqValidityData, prereqID, t), a, boxNames, k + 1);
          return Err(res.error);
        }
        cur := res.value;
        acc := BoxStep(prereqValidityData, prereqID, t)(acc, boxNames[k]).value;
      }
      assert boxNames[..|boxNames|] == boxNames;
      r := Ok(cur);
    }

    /** One pass of the segment loop: parse the provider, initialise its counter on first sight, run the box loop. */
    method SafetySegment(validityData: bool, seg: string, t: Time, state: (Counters, Timeline), ghost a: Acc)
      returns (r: Result<(Counters, Timeline)>)
      requires Mirrors(validityData, state, a)
      ensures Follows(validityData, r, SegStep(prereqValidityData, t, modeledEq)(a, seg))
    {
      var (prereqID, boxNames) := RefNames(seg, modeledEq);
      var indexCounterDict := state.0;
      if prereqID !in indexCounterDict {
        indexCounterDict := indexCounterDict[prereqID := 0];
      }
      assert indexCounterDict == InitCounter(a.counters, prereqID);
      r := SafetyBoxes(validityData, prereqID, boxNames, t, (indexCounterDict, state.1), Acc(indexCounterDict, a.events));
    }

    /** The segment loop of `get_safety_set`, one provider segment at a time. */
    method SafetySegments(validityData: bool, segs: seq<string>, t: Time, state: (Counters, Timeline), ghost a: Acc)
      returns (r: Result<(Counters, Timeline)>)
      requires Mirrors(validityData, state, a)
      ensures Follows(validityData, r, FoldResult(SegStep(prereqValidityData, t, modeledEq), a, segs))
    {
      var cur := state;
      ghost var acc := a;
      assert segs[..0] == [];
      for j := 0 to |segs|
        invariant FoldResult(SegStep(prereqValidityData, t, modeledEq), a, segs[..j]) == Ok(acc)
        invariant Mirrors(validityData, cur, acc)
      {
        FoldPrefix(SegStep(prereqValidityData, t, modeledEq), a, segs, j);
        var res := SafetySegment(validityData, segs[j], t, cur, acc);
        if res.Err? {
          FoldErrSticks(SegStep(prereqValidityData, t, modeledEq), a, segs, j + 1);
          return Err(res.error);
        }
        cur := res.value;
        acc := SegStep(prereqValidityData, t, modeledEq)(acc, segs[j]).value;
      }
      assert segs[..|segs|] == segs;
      r := Ok(cur);
    }

    /**
     * `get_safety_set(validity_data)`, with each provider segment of a
     * prereq-list line parsed on its own and the closing '}' stripped: for
     * every box of every provider, the line's time is appended under
     * `[box][prereq_ID]`, or only when the prereq read as valid if
     * `validityData` holds.
     */
    method GetSafetySet(validityData: bool) returns (r: Result<Timeline>)
      ensures r == SafetySet(prereqValidityData, validityData, testLog, modeledEq, parse)
    {
      var state: (Counters, Timeline) := (map[], map[]);
      ghost var acc := Acc(map[], []);
      assert testLog[..0] == [];
      for i := 0 to |testLog|
        invariant Reads(prereqValidityData, testLog[..i], modeledEq, parse) == Ok(acc)
        invariant Mirrors(validityData, state, acc)
      {
        FoldPrefix(LineStep(prereqValidityData, modeledEq, parse), Acc(map[], []), testLog, i);
        var entry := testLog[i];
        if Contains(entry, PREREQ_MACH_LIST) {
          var segments := PrereqSegments(entry, '}');
          var thisDatetime := DateOf(FieldThenSlice, parse, segments[0]);
          if thisDatetime.Err? {
            FoldErrSticks(LineStep(prereqValidityData, modeledEq, parse), Acc(map[], []), testLog, i + 1);
            return Err(thisDatetime.error);
          }
          var res := SafetySegments(validityData, segments[1..], thisDatetime.value, state, acc);
          if res.Err? {
            FoldErrSticks(LineStep(prereqValidityData, modeledEq, parse), Acc(map[], []), testLog, i + 1);
            return Err(res.error);
          }
          state := res.value;
          acc := FoldResult(SegStep(prereqValidityData, thisDatetime.value, modeledEq), acc, segments[1..]).value;
        }
      }
      assert testLog[..|testLog|] == testLog;
      r := Ok(state.1);
    }

    /** The `try: d[box][test] except KeyError: d[box][test] = value` idiom on the result records. */
    method TouchResult(box: string, test: string, value: ResultRecord)
      modifies this`testResultDict
      ensures testResultDict == Touch(old(testResultDict), box, test, value)
    {
      if box !in testResultDict {
        testResultDict := testResultDict[box := map[]];
      }
      if test !in testResultDict[box] {
        testResultDict := testResultDict[box := testResultDict[box][test := value]];
      } else {
        assert testResultDict == testResultDict[box := testResultDict[box]];
      }
    }

    /**
     * The segment loop of `get_test_set`: the line's time appended under
     * `[box][test]`, and a pending result record created when absent.
     */
    method RecordTestSegments(d: Timeline, segs: seq<string>, t: Time) returns (r: Timeline)
      modifies this`testResultDict
      ensures r == RecordAll(d, RunningLineEvents(segs, t))
      ensures testResultDict == Register(old(testResultDict), RunningLineEvents(segs, t))
    {
      r := d;
      assert segs[..0] == [];
      for j := 0 to |segs|
        invariant r == RecordAll(d, RunningLineEvents(segs[..j], t))
        invariant testResultDict == Register(old(testResultDict), RunningLineEvents(segs[..j], t))
      {
        var (test, box) := TestOnBox(segs[j]);
        var e := Event(box, test, t, true);
        RunningLineEventsPrefix(segs, t, j);
        RecordAllSnoc(d, RunningLineEvents(segs[..j], t), e);
        RegisterSnoc(old(testResultDict), RunningLineEvents(segs[..j], t), e);
        r := RecordEvent(r, e);
        TouchResult(box, test, Pending);
      }
      assert segs[..|segs|] == segs;
    }

    /**
     * `get_test_set`: for every "<test> on <box>" segment of every running
     * line, the line's time (its last 6 characters cut off) appended under
     * `[box][test]`; result records registered along the way stay
     * registered when a later line fails.
     */
    method GetTestSet() returns (r: Result<Timeline>)
      modifies this`testResultDict
      ensures r == RunningTimeline(RunningFold(testLog, stateMachine, SliceOnly, parse))
      ensures testResultDict == Register(old(testResultDict), RunningFold(testLog, stateMachine, SliceOnly, parse).0)
    {
      var testsetDict: Timeline := map[];
      ghost var evs: seq<Event> := [];
      assert testLog[..0] == [];
      for i := 0 to |testLog|
        invariant RunningFold(testLog[..i], stateMachine, SliceOnly, parse) == (evs, None)
        invariant testsetDict == Build(evs)
        invariant testResultDict == Register(old(testResultDict), evs)
      {
        var entry := testLog[i];
        RunningFoldPrefix(testLog, i, stateMachine, SliceOnly, parse);
        if Contains(entry, RUNNING) {
          var segments := RunningSegments(entry, stateMachine);
          var thisDatetime := DateOf(SliceOnly, parse, segments[0]);
          if thisDatetime.Err? {
            RunningFoldErrSticks(testLog, i + 1, stateMachine, SliceOnly, parse);
            return Err(thisDatetime.error);
          }
          ghost var lineEvents := RunningLineEvents(segments[1..], thisDatetime.value);
          testsetDict := RecordTestSegments(testsetDict, segments[1..], thisDatetime.value);
          RecordAllAppend(map[], evs, lineEvents);
          RegisterAppend(old(testResultDict), evs, lineEvents);
          evs := evs + lineEvents;
        }
      }
      assert testLog[..|testLog|] == testLog;
      r := Ok(testsetDict);
    }

    /** The loop of `get_test_list`: each segment's test name, kept at its first appearance. */
    static method DistinctTests(segs: seq<string>) returns (testList: seq<string>)
      ensures testList == Dedup(TestNames(segs))
    {
      testList := [];
      var k := 0;
      while k < |segs|
        invariant 0 <= k <= |segs|
        invariant testList == Dedup(TestNames(segs[..k]))
      {
        var aTest := TestOnBox(segs[k]).0;
        assert segs[..k + 1][..k] == segs[..k];
        DedupSnoc(TestNames(segs[..k]), aTest);
        if aTest !in testList {
          testList := testList + [aTest];
        }
        k := k + 1;
      }
      assert segs[..k] == segs;
    }

    /** `get_test_list`: the distinct tests of the first "to run = " line, in first-appearance order. */
    method GetTestList() returns (r: Result<seq<string>>)
      ensures r == TestList(testLog, stateMachine)
    {
      var toRunEntries := Matching(testLog, TO_RUN);
      if toRunEntries == [] {
        return Err(IndexError);
      }
      var segments := RunningSegments(toRunEntries[0], stateMachine);
      var testList := DistinctTests(segments[1..]);
      r := Ok(testList);
    }

    /** The inner loop of `get_test_count`: one sample per listed test, its occurrences in the running text. */
    static method CountTests(d: CountDict, tests: seq<string>, t: Time, allTestsString: string) returns (r: CountDict)
      ensures r == AddTests(d, tests, t, allTestsString)
    {
      r := d;
      var k := 0;
      while k < |tests|
        invariant 0 <= k <= |tests|
        invariant r == AddTests(d, tests[..k], t, allTestsString)
      {
        var aTest := tests[k];
        assert tests[..k + 1][..k] == tests[..k];
        var series := if aTest in r then r[aTest] else Series([], []);
        r := r[aTest := Series(series.times + [t], series.counts + [Count(allTestsString, aTest)])];
        k := k + 1;
      }
      assert tests[..k] == tests;
    }

    /**
     * `get_test_count`: per running line, the number of running tests under
     * "all" and each listed test's occurrences under its name, all at the
     * line's time.
     */
    method GetTestCount() returns (r: Result<CountDict>)
      ensures r == TestCount(testLog, stateMachine, parse)
    {
      var testList := GetTestList();
      if testList.Err? {
        return Err(testList.error);
      }
      var tests := testList.value;
      var countDict := INITIAL_COUNTS;
      var runningEntries := Matching(testLog, RUNNING);
      var i := 0;
      assert runningEntries[..0] == [];
      while i < |runningEntries|
        invariant 0 <= i <= |runningEntries|
        invariant FoldResult(CountStep(tests, stateMachine, parse), INITIAL_COUNTS, runningEntries[..i]) == Ok(countDict)
      {
        var entry := runningEntries[i];
        FoldPrefix(CountStep(tests, stateMachine, parse), INITIAL_COUNTS, runningEntries, i);
        var parts := Split(entry, RUNNING);
        if |parts| != 2 {
          FoldErrSticks(CountStep(tests, stateMachine, parse), INITIAL_COUNTS, runningEntries, i + 1);
          return Err(ValueError);
        }
        var timeString, allTestsString := parts[0], parts[1];
        var dateTime := DateOf(SliceOnly, parse, timeString);
        if dateTime.Err? {
          FoldErrSticks(CountStep(tests, stateMachine, parse), INITIAL_COUNTS, runningEntries, i + 1);
          return Err(dateTime.error);
        }
        countDict := AddSample(countDict, "all", dateTime.value, Count(allTestsString, stateMachine));
        countDict := CountTests(countDict, tests, dateTime.value, allTestsString);
        i := i + 1;
      }
      assert runningEntries[..i] == runningEntries;
      r := Ok(countDict);
    }

    /**
     * `set_prereq_validity_data` on the lines of a validity file: an unknown
     * prereq ID is a ValueError, a time that does not parse too; otherwise
     * the file's samples are stored under the ID.
     */
    method SetPrereqValidityData(fileLines: seq<string>, prereqID: string) returns (error: Option<PyError>)
      modifies this`prereqValidityData
      ensures var u := ValidityUpdate(old(prereqValidityData), testLog, fileLines, prereqID, parsePrereqTime);
        && (u.Err? ==> error == Some(u.error) && prereqValidityData == old(prereqValidityData))
        && (u.Ok? ==> error == None && prereqValidityData == u.value)
    {
      var prereqIDs := GetPrereqIDs();
      if prereqID !in prereqIDs {
        return Some(ValueError);
      }
      var validity := Flags(fileLines);
      var dtValue := ParseAll(parsePrereqTime, TimeTexts(fileLines));
      if dtValue.Err? {
        return Some(dtValue.error);
      }
      prereqValidityData := prereqValidityData[prereqID := Stream(dtValue.value, validity)];
      error := None;
    }

    /**
     * `set_test_result` on the lines of a test's own log: the first result
     * line's time and result text stored under `[refName][test]`, the entry
     * created first so that a failure afterwards leaves an empty record.
     */
    method SetTestResult(fileLines: seq<string>, refName: string, test: string) returns (error: Option<PyError>)
      modifies this`testResultDict
      ensures (testResultDict, error) == SetResult(old(testResultDict), fileLines, refName, test, parse)
    {
      var resultEntry := ResultLines(fileLines);
      if resultEntry == [] {
        return Some(IndexError);
      }
      var resultSegments := Split(resultEntry[0], FIELD_SEP);
      TouchResult(refName, test, Empty);
      if |resultSegments| < 2 {
        return Some(IndexError);
      }
      var time := parse(DropLast(resultSegments[1], 6));
      if time.None? {
        return Some(ValueError);
      }
      if |resultSegments| < 3 {
        return Some(IndexError);
      }
      testResultDict := testResultDict[refName := testResultDict[refName][test := Recorded(time.value, ResultCode(resultSegments[2]))]];
      error := None;
    }
  }
}
