/**
 * The script `scheduler_graph.py`: the development-build markers, and the
 * loops that turn a log into the prereq IDs, the safety set and the test set.
 */
module SchedulerGraph {
  import opened Outcome
  import opened PyStr
  import opened Seqs
  import opened Timelines
  import opened LogParse
  import opened Layout

  const STATE_MACHINE: Marker := "2SCXTest running "
  const MODELED_EQ: Marker := "<Equipment: "
  const PLOT_FORMAT_SAFETY_SET: seq<string> := ["b.", "g.", "r.", "c.", "m.", "y."]

  /** `getPrereqIDs`: the distinct prereq IDs, in the order they first appear. */
  method GetPrereqIDs(testLog: seq<string>) returns (prereqIDs: seq<string>)
    ensures prereqIDs == Dedup(PrereqLabels(testLog))
  {
    prereqIDs := [];
    var i := 0;
    assert testLog[..0] == [];
    while i < |testLog|
      invariant 0 <= i <= |testLog|
      invariant prereqIDs == Dedup(PrereqLabels(testLog[..i]))
    {
      var entry := testLog[i];
      DedupLabelsStep(testLog, i);
      if Find(entry, PREREQ_ID) >= 0 {
        var prereq := PrereqLabel(entry);
        if prereq !in prereqIDs {
          prereqIDs := prereqIDs + [prereq];
        }
      }
      i := i + 1;
    }
    assert testLog[..i] == testLog;
  }

  /** The box loop of `getSafetySet`: the timestamp appended under every box of one provider. */
  method RecordBoxes(d: Timeline, prereqID: string, boxNames: seq<string>, t: Time) returns (r: Timeline)
    ensures r == RecordAll(d, BoxEvents(prereqID, boxNames, t))
  {
    r := d;
    var k := 0;
    while k < |boxNames|
      invariant 0 <= k <= |boxNames|
      invariant r == RecordAll(d, BoxEvents(prereqID, boxNames[..k], t))
    {
      r := RecordEvent(r, Event(boxNames[k], prereqID, t, true));
      assert boxNames[..k + 1][..k] == boxNames[..k];
      RecordAllSnoc(d, BoxEvents(prereqID, boxNames[..k], t), Event(boxNames[k], prereqID, t, true));
      k := k + 1;
    }
    assert boxNames[..k] == boxNames;
  }

  /** The segment loop of `getSafetySet` over the provider segments of one line. */
  method RecordProviders(d: Timeline, segs: seq<string>, t: Time) returns (r: Timeline)
    ensures r == RecordAll(d, PrereqLineEvents(segs, t, MODELED_EQ))
  {
    r := d;
    var j := 0;
    while j < |segs|
      invariant 0 <= j <= |segs|
      invariant r == RecordAll(d, PrereqLineEvents(segs[..j], t, MODELED_EQ))
    {
      var (prereqID, boxNames) := RefNames(segs[j], MODELED_EQ);
      r := RecordBoxes(r, prereqID, boxNames, t);
      assert segs[..j + 1][..j] == segs[..j];
      RecordAllAppend(d, PrereqLineEvents(segs[..j], t, MODELED_EQ), BoxEvents(prereqID, boxNames, t));
      j := j + 1;
    }
    assert segs[..j] == segs;
  }

  /**
   * `getSafetySet`: for every provider segment of every prereq-list line,
   * the line's timestamp appended under each of the segment's boxes.
   */
  method GetSafetySet(testLog: seq<string>, parse: Parser) returns (r: Result<Timeline>)
    ensures r == PrereqTimeline(PrereqEvents(testLog, '}', MODELED_EQ, parse))
  {
    var prereqDict: Timeline := map[];
    ghost var evs: seq<Event> := [];
    var i := 0;
    assert testLog[..0] == [];
    while i < |testLog|
      invariant 0 <= i <= |testLog|
      invariant PrereqEvents(testLog[..i], '}', MODELED_EQ, parse) == Ok(evs)
      invariant prereqDict == Build(evs)
    {
      var entry := testLog[i];
      assert testLog[..i + 1][..i] == testLog[..i];
      if Find(entry, PREREQ_MACH_LIST) >= 0 {
        var segments := Split(RStrip(LStrip(entry, {'{'}), {'}'}), PREREQ_MACH);
        var thisDatetime := DateOf(FieldThenSlice, parse, segments[0]);
        if thisDatetime.Err? {
          PrereqEventsErrSticks(testLog, i + 1, '}', MODELED_EQ, parse);
          return Err(thisDatetime.error);
        }
        prereqDict := RecordProviders(prereqDict, segments[1..], thisDatetime.value);
        RecordAllAppend(map[], evs, PrereqLineEvents(segments[1..], thisDatetime.value, MODELED_EQ));
        evs := evs + PrereqLineEvents(segments[1..], thisDatetime.value, MODELED_EQ);
      }
      i := i + 1;
    }
    assert testLog[..i] == testLog;
    r := Ok(prereqDict);
  }

  /** The segment loop of `getTestSet` over the "<test> on <box>" segments of one line. */
  method RecordTests(d: Timeline, segs: seq<string>, t: Time) returns (r: Timeline)
    ensures r == RecordAll(d, RunningLineEvents(segs, t))
  {
    r := d;
    var j := 0;
    assert segs[..0] == [];
    while j < |segs|
      invariant 0 <= j <= |segs|
      invariant r == RecordAll(d, RunningLineEvents(segs[..j], t))
    {
      var (test, box) := TestOnBox(segs[j]);
      r := RecordEvent(r, Event(box, test, t, true));
      RunningLineEventsPrefix(segs, t, j);
      RecordAllSnoc(d, RunningLineEvents(segs[..j], t), Event(box, test, t, true));
      j := j + 1;
    }
    assert segs[..j] == segs;
  }

  /**
   * `getTestSet`: for every "<test> on <box>" segment of every running line,
   * the line's timestamp appended under `[box][test]`.
   */
  method GetTestSet(testLog: seq<string>, parse: Parser) returns (r: Result<Timeline>)
    ensures r == RunningTimeline(RunningFold(testLog, STATE_MACHINE, FieldThenSlice, parse))
  {
    var testsetDict: Timeline := map[];
    ghost var evs: seq<Event> := [];
    assert testLog[..0] == [];
    for i := 0 to |testLog|
      invariant RunningFold(testLog[..i], STATE_MACHINE, FieldThenSlice, parse) == (evs, None)
      invariant testsetDict == Build(evs)
    {
      var entry := testLog[i];
      RunningFoldPrefix(testLog, i, STATE_MACHINE, FieldThenSlice, parse);
      if Find(entry, RUNNING) >= 0 {
        var segments := Split(Replace(RStrip(LStrip(entry, {'['}), {']'}), ", ", ""), STATE_MACHINE);
        var thisDatetime := DateOf(FieldThenSlice, parse, segments[0]);
        if thisDatetime.Err? {
          RunningFoldErrSticks(testLog, i + 1, STATE_MACHINE, FieldThenSlice, parse);
          return Err(thisDatetime.error);
        }
        testsetDict := RecordTests(testsetDict, segments[1..], thisDatetime.value);
        RecordAllAppend(map[], evs, RunningLineEvents(segments[1..], thisDatetime.value));
        evs := evs + RunningLineEvents(segments[1..], thisDatetime.value);
      }
    }
    assert testLog[..|testLog|] == testLog;
    r := Ok(testsetDict);
  }

  /** `mapPrereqsToPlotColor`: the i-th prereq ID gets the (i mod 6)-th plot format. */
  function MapPrereqsToPlotColor(prereqIDs: seq<string>): (colorMap: map<string, string>)
    ensures forall x :: x in colorMap <==> x in prereqIDs
    ensures forall i :: 0 <= i < |prereqIDs| && prereqIDs[i] !in prereqIDs[i + 1..] ==>
      colorMap[prereqIDs[i]] == PLOT_FORMAT_SAFETY_SET[i % 6]
  {
    MapItemsToPlotColor(prereqIDs, PLOT_FORMAT_SAFETY_SET).value
  }
}
