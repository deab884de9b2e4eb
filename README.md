# Test-scheduler log analyser, modelled in Dafny

The analyser reads the log of a building-automation test scheduler and
reconstructs what happened during a test set. It covers:

- which prerequisite (prereq) IDs were updated;
- which equipment boxes each prereq provider covered, and when (the *safety
  set*);
- which test ran on which box, and when (the *test set*);
- how many tests ran at each point in time;
- the result of each test, read from its own log.

Two files do this in parallel. `test_set_viz.py` has the class `TestSet`,
which also checks prereq validity data against a per-prereq watermark.
`scheduler_graph.py` has the plain script. Two helper files round out the
analyser:

- `bbdata.py` filters file names by keyword and lays trend data out on a
  grid of subplots.
- `csvTest.py` counts lines, isolates CSV columns, finds empty files and
  extracts the site names embedded in file names.

The model works on the log as a sequence of lines (`seq<string>`).

- **Python string operations.** `find`, `rfind`, `split`, `partition`,
  `rpartition`, `lstrip`/`rstrip` with a character set, `replace`, `count`
  and slicing are defined in module `PyStr`, with their Python edge cases.
- **Exceptions.** Python exceptions are values of `Outcome.Result`.
- **Timestamps.** A timestamp is an `int`, and `datetime.strptime` is a
  parameter `parse: string -> Option<Time>` (`None` is a ValueError).
- **Nested dicts.** The dicts `box -> label -> [timestamps]` that both
  files accumulate are specified once, in module `Timelines`, as the
  recording of a sequence of events.

Each file's code is modelled in its own form:

- The loops of `scheduler_graph.py` are methods with loop invariants.
- The `TestSet` class is a Dafny class. Its fields are the validity data
  and the result records that its methods update in place.
- Every method is proved equal to a specification function, or is
  specified directly by its properties. The lemmas state the properties
  of the specification functions: order, no loss, no
  duplication, get-or-create without overwrite, the watermark's step
  bound, and the round trips of the timestamp and result parsing.

Modules:

- `Outcome`, `Seqs` and `Folds` (`seqs.dfy`): exceptions, "append if not
  already in the list", `sorted`, loops whose body can raise.
- `PyStr` (`pystr.dfy`): Python string operations.
- `Timelines` (`timelines.dfy`): the get-or-create-and-append dicts.
- `LogParse` (`logparse.dfy`): line markers, timestamp text, prereq
  segments and ref names, "<test> on <box>" segments, and the events they
  yield.
- `Validity` (`validity.dfy`): the validity watermark and the safety set
  with validity filtering.
- `Layout` (`layout.dfy`): the box list, instance counts, y-axis rows and
  colours, which both files share.
- `SchedulerGraph` (`scheduler_graph.dfy`): the script's loops.
- `TestSetSpec` (`testset_spec.dfy`): specification functions for the
  class.
- `TestSetViz` (`test_set_viz.dfy`): the class `TestSet`.
- `BBData` (`bbdata.dfy`): `filterRecur`, `filter_data` and the subplot
  grid.
- `CsvTest` (`csv_test.dfy`): the csv helpers.

## Model

| member | source | states |
|---|---|---|
| PyStr.Find | test_set_viz.py:94 | `find` returns the first index where the substring occurs, or -1 when it occurs nowhere |
| PyStr.RFind | csvTest.py:94 | `rfind` returns the last index where the substring occurs, or -1 |
| PyStr.Split | scheduler_graph.py:150 | `split` yields at least one field, and no field contains the separator |
| PyStr.SplitAfterFirst | test_set_viz.py:441 | splitting `a + sep + b`, where the first separator is the one after `a`, gives `a` followed by the split of `b` |
| PyStr.JoinSplit | scheduler_graph.py:165 | joining the fields of a split with the separator gives back the original text |
| PyStr.Partition | test_set_viz.py:186 | `partition` concatenates back to the input around the first separator; without a separator it returns `(s, "", "")`; the head never contains the separator |
| PyStr.PartitionHead | test_set_viz.py:239 | the head of `partition` is field 0 of `split` |
| PyStr.RPartition | csvTest.py:94 | `rpartition` concatenates back to the input around the last separator; without one it returns `("", "", s)`; the tail never contains the separator |
| PyStr.LStrip | test_set_viz.py:453 | `lstrip(chars)` drops a prefix made only of characters in the set, and the result does not start with one of them |
| PyStr.LStripPrefix | test_set_viz.py:453 | stripping `p + d`, where `p` holds only stripped characters and `d` starts with another, yields exactly `d` |
| PyStr.RStrip | test_set_viz.py:273 | `rstrip(chars)` drops a suffix made only of characters in the set, and the result does not end with one of them |
| PyStr.RStripSuffix | test_set_viz.py:273 | stripping `d + q`, where `q` holds only stripped characters, yields exactly `d` |
| PyStr.Replace | test_set_viz.py:277 | `replace(pat, rep)` leaves a text without `pat` unchanged, and so does replacing `pat` by itself |
| PyStr.RemoveCharGone | test_set_viz.py:277 | `replace(c, '')` leaves no `c` in the text |
| PyStr.Count | test_set_viz.py:221 | `count(sub)` is 0 exactly when the non-empty `sub` does not occur |
| PyStr.CountAfterFirst | test_set_viz.py:221 | `count(sub)` counts the first occurrence and then the occurrences after it, so with `Count` it is the number of non-overlapping occurrences |
| PyStr.DropLast | test_set_viz.py:268 | `s[:-n]` is `s` without its last n characters, or "" when `s` is shorter |
| PyStr.Inner | test_set_viz.py:273 | `s[1:-1]` is `s` without its first and last character, or "" when `s` is shorter than 2 |
| Seqs.Dedup | test_set_viz.py:95-96 | "append if not in the list" keeps every value of the input exactly once |
| Seqs.DedupSnoc | test_set_viz.py:95-96 | one more iteration appends the value exactly when it is new |
| Seqs.DedupFirstAppearanceOrder | test_set_viz.py:93-96 | the kept values appear in the order of their first occurrence |
| Seqs.LexTotal | test_set_viz.py:263 | Python's `str` order relates any two distinct strings |
| Seqs.LexTransitive | test_set_viz.py:263 | Python's `str` order is transitive |
| Seqs.InsertSorted | test_set_viz.py:263 | inserting a new name into a strictly sorted list keeps it strictly sorted, adding exactly that name |
| Seqs.SortNames | test_set_viz.py:263 | `sorted` of a duplicate-free list is strictly sorted and has the same members and the same length |
| Seqs.SortedNoDups | test_set_viz.py:263 | a strictly sorted list has no duplicates |
| Folds.FoldErrSticks | test_set_viz.py:118-144 | an exception raised within a prefix of a loop's items ends the loop with that exception |
| Timelines.Record | scheduler_graph.py:116-126 | get-or-create `d[box][tag]` adds the keys, changes no other box or list, and appends the time to that list only when the event is kept |
| Timelines.RecordEvent | scheduler_graph.py:117-126 | the two `try/except KeyError` blocks and the append compute `Record` |
| Timelines.RecordAllAppend | scheduler_graph.py:108-127 | recording two batches in turn is recording their concatenation |
| Timelines.BuildLookup | scheduler_graph.py:108-127 | the list under (box, tag) is exactly the kept timestamps of the events that name the pair, in event order |
| Timelines.BuildKeys | scheduler_graph.py:116-125 | a box is a key iff some event names it; a tag is under a box iff some event names the pair, whether or not its timestamp was kept |
| Timelines.BuildExtends | scheduler_graph.py:116-126 | more events never remove a key, and they only extend each list at its end |
| Timelines.TimesUnkept | test_set_viz.py:143-144 | events that are not kept contribute no timestamp |
| LogParse.PrereqLabel | test_set_viz.py:94 | the prereq ID is the text after the first "updating prereq " of the line |
| LogParse.PrereqLabelsMembers | scheduler_graph.py:70-72 | a value is a prereq ID of the log iff some line carries the marker and announces it |
| LogParse.PrereqLabelsSnoc | scheduler_graph.py:70-72 | one more line adds its prereq ID exactly when it carries the marker |
| LogParse.FieldDateText | scheduler_graph.py:150 | the date text of `getDateTime` is missing (IndexError) exactly when the line has no " - " |
| LogParse.FieldDateTextRoundTrip | scheduler_graph.py:149-152 | from "prefix - stamp+6-char offset - rest", the date text is exactly the stamp |
| LogParse.DateOf | test_set_viz.py:266-269 | `TestSet.getDateTime` parses the text without its last 6 characters; the script's version fails with IndexError when " - " is missing |
| LogParse.PrereqSegments | scheduler_graph.py:111 | a prereq-list line always yields at least the timestamp segment |
| LogParse.RefNames | scheduler_graph.py:159-166 | the prereq ID ends at ">: " and is the whole segment when ">: " is missing; the ref names are exactly ["Manual"] when the equipment text is empty, and otherwise a non-empty list whose names contain no ' ', '>' or ',' and only characters of the equipment text |
| LogParse.RunningSegments | test_set_viz.py:183 | a running line always yields at least the timestamp segment |
| LogParse.TestOnBox | test_set_viz.py:186 | "<test> on <box>" splits at the first " on "; without one, the test is the whole segment and the box is "" |
| LogParse.BoxEvents | scheduler_graph.py:116-126 | one kept event per box of a provider, in order, at the line's time |
| LogParse.PrereqLineEventCount | scheduler_graph.py:113-126 | a prereq-list line appends one timestamp per ref name parsed, at least one per provider segment, all at the line's time |
| LogParse.RunningLineEvents | scheduler_graph.py:135-146 | one kept event per "<test> on <box>" segment, in order, at the line's time |
| LogParse.RunningLineEventsPrefix | scheduler_graph.py:135-146 | one more segment adds exactly its event at the end |
| LogParse.PrereqEvents | scheduler_graph.py:108-126 | the events of the prereq-list lines; the loop fails only with IndexError (no date field) or ValueError (a date that does not parse) |
| LogParse.PrereqEventsNone | scheduler_graph.py:108-110 | a log without prereq-list lines yields no events and cannot fail |
| LogParse.PrereqEventsErrSticks | scheduler_graph.py:108-112 | a timestamp that fails on one line fails the whole safety set the same way |
| LogParse.RunningFoldPrefix | scheduler_graph.py:131-146 | one more log line changes the running-line fold by exactly one step |
| LogParse.RunningFoldErrSticks | scheduler_graph.py:131-134 | a timestamp that fails on one running line fails the whole test set the same way |
| LogParse.RunningFoldKeepsAll | scheduler_graph.py:146 | every running-line event appends its timestamp |
| Validity.IsPrereqValid | test_set_viz.py:148-170 | an unregistered prereq reads as not valid and leaves the counters unchanged; otherwise only that prereq's counter moves, by at most one, and exactly when the next sample time is not after the query; the value read is the sample at the new index; IndexError or KeyError occur exactly where Python raises them |
| Validity.OneStepPerCall | test_set_viz.py:159-166 | at time 40 with samples at 10/20/30, a call moves from the first sample only to the second and reads its value |
| Validity.InitCounter | test_set_viz.py:125-128 | the counter of a prereq is set to 0 only the first time it is met |
| Validity.Filtered | test_set_viz.py:143-144 | a timestamp is kept when validity is not asked for, or when it was read as valid; boxes, labels and times are unchanged |
| Validity.FilteredAppend | test_set_viz.py:143-144 | the filter works event by event |
| Validity.BoxStepsAdvanceAtMost | test_set_viz.py:130-142 | a box loop over k boxes removes no counter and moves each one forward by at most k |
| Validity.BoxStepsEvents | test_set_viz.py:130-144 | the box loop records one event per box, in order, whatever was read |
| Validity.SegStepsEvents | test_set_viz.py:118-144 | ignoring validity, the segment loop records exactly the events of the script's segment loop |
| Validity.ReadsMatchPrereqEvents | test_set_viz.py:114-146 | ignoring validity, the class records the same events as the script `getSafetySet` |
| Validity.BoxStepsNoData | test_set_viz.py:149-152 | without validity data, the box loop cannot fail, changes no counter and reads nothing as valid |
| Validity.SegStepsNoData | test_set_viz.py:149-152 | without validity data, the segment loop cannot fail and reads nothing as valid |
| Validity.ReadsNoData | test_set_viz.py:149-152 | without validity data, only an unreadable timestamp makes the safety set fail |
| Validity.SafetySet | test_set_viz.py:99-146 | `get_safety_set` fails exactly when reading the log fails: the validity filter changes which timestamps are kept, never whether the call fails |
| Validity.SafetySetWithoutValidity | test_set_viz.py:143 | `get_safety_set(False)` is the script's safety set of the same log; without validity data both fail on the same logs |
| Validity.SafetySetKeysAgree | test_set_viz.py:130-144 | with and without validity filtering, the same boxes and the same prereq IDs under them appear |
| Validity.FilteredMentions | test_set_viz.py:143-144 | the filter changes no event's box or prereq ID |
| Validity.SafetySetNoDataKeepsNothing | test_set_viz.py:143-152 | asked for valid timestamps with no validity data registered, the safety set holds no timestamp at all |
| Layout.GetBoxList | test_set_viz.py:249-264 | the box list is strictly sorted and holds exactly the keys of both dicts |
| Layout.CountBoxInstances | test_set_viz.py:280-286 | each listed box counts the labels, not the timestamps, that both dicts hold for it; an unlisted dict key raises KeyError |
| Layout.AddLabelCounts | test_set_viz.py:282-285 | one dict's label counts are added to every listed box; KeyError iff some key is not listed |
| Layout.MapBoxesToAxis | test_set_viz.py:288-316 | the i-th name gets row i + 1; every box gets the same number of ticks, the largest label count; KeyError for an unlisted key and ValueError for an empty list |
| Layout.MaxCount | test_set_viz.py:304 | `max` is an upper bound that some name reaches |
| Layout.AssignRows | test_set_viz.py:309-315 | the loop with `counter` from 1 gives each name its position plus one, and `max_ticks` ticks |
| Layout.Repeat | test_set_viz.py:320 | the repeated palette has item i equal to `formats[i % len(formats)]` |
| Layout.ZipToMap | test_set_viz.py:321 | `dict(zip(...))` maps each key to its value, the last one when a key repeats |
| Layout.MapItemsToPlotColor | test_set_viz.py:318-322 | the item at position i gets `formats[i % len(formats)]`; an empty palette raises ZeroDivisionError |
| Layout.PaletteCoversItems | test_set_viz.py:319-320 | the repeated palette is never shorter than the item list |
| SchedulerGraph.GetPrereqIDs | scheduler_graph.py:65-75 | the distinct prereq IDs in first-appearance order |
| SchedulerGraph.RecordBoxes | scheduler_graph.py:116-126 | the box loop records the events of one provider segment |
| SchedulerGraph.RecordProviders | scheduler_graph.py:113-126 | the segment loop records the events of one prereq-list line |
| SchedulerGraph.GetSafetySet | scheduler_graph.py:94-127 | the dict is the timeline of the events of all prereq-list lines, or the first timestamp failure |
| SchedulerGraph.RecordTests | scheduler_graph.py:135-146 | the segment loop records one event per "<test> on <box>" segment |
| SchedulerGraph.GetTestSet | scheduler_graph.py:129-147 | the dict is the timeline of the running-line events, or the first timestamp failure |
| SchedulerGraph.MapPrereqsToPlotColor | scheduler_graph.py:206-210 | the i-th prereq ID gets `PLOT_FORMAT_SAFETY_SET[i % 6]` |
| TestSetSpec.Matching | test_set_viz.py:181 | the filtered lines all carry the marker, and the result is empty iff no line does |
| TestSetSpec.MatchingSnoc | test_set_viz.py:181 | one more line is kept exactly when it carries the marker |
| TestSetSpec.MatchingFirst | test_set_viz.py:235-236 | entry 0 of the filter is the first line carrying the marker |
| TestSetSpec.Touch | test_set_viz.py:199-209 | get-or-create never overwrites an existing record; a missing record gets the given value; other boxes are unchanged |
| TestSetSpec.RegisterSnoc | test_set_viz.py:199-209 | one more segment touches its (box, test) with a pending record |
| TestSetSpec.RegisterAppend | test_set_viz.py:182-209 | registering two batches in turn is registering their concatenation |
| TestSetSpec.RegisterKeeps | test_set_viz.py:199-209 | an existing result record is never overwritten; every other record is pending |
| TestSetSpec.RegisterKeys | test_set_viz.py:199-209 | the registered boxes are the old ones plus those the segments name, and every named pair has a record |
| TestSetSpec.TestNames | test_set_viz.py:238-239 | the test name of each segment, in order |
| TestSetSpec.TestList | test_set_viz.py:234-242 | no "to run = " line is an IndexError; otherwise the result is duplicate-free and holds exactly the tests named in the first such line's segments, not counting the timestamp segment |
| TestSetSpec.AddSample | test_set_viz.py:225-230 | get-or-create the series, then append one time and one count to it, and to no other |
| TestSetSpec.AddTestsShape | test_set_viz.py:224-230 | the inner loop adds exactly the listed tests as keys, keeps every series paired and leaves unlisted keys alone |
| TestSetSpec.AddTestsSamples | test_set_viz.py:224-230 | each listed test gains exactly one sample: the line's time and how often its own name occurs in the line |
| TestSetSpec.TestCount | test_set_viz.py:213-232 | IndexError when no line announces the tests to run; with no running line, only the empty "all" series |
| TestSetSpec.CountStepSamples | test_set_viz.py:218-230 | one running line appends to "all" its parsed time and the number of running tests, and to each listed test the same time and that test's own count |
| TestSetSpec.FoldSamples | test_set_viz.py:217-230 | after the loop, sample i of "all" and of every listed test comes from running line i |
| TestSetSpec.TestCountSamples | test_set_viz.py:213-232 | for the i-th running line, "all" holds its parsed time and `count(STATE_MACHINE)` of the part after "running = ", and each listed test holds the same time and `count(test)` of that part |
| TestSetSpec.TestCountShape | test_set_viz.py:213-232 | every series has one count per time; "all" has one sample per running line; every listed test is sampled at exactly the times "all" is |
| TestSetSpec.FoldShape | test_set_viz.py:217-230 | the loop over running lines keeps the series paired and in step |
| TestSetSpec.CountStepShape | test_set_viz.py:218-230 | one running line appends one sample to "all" and keeps the listed tests in step |
| TestSetSpec.PrereqTimeTextRoundTrip | test_set_viz.py:426 | a quoted stamp followed by a 5-character tail gives back the stamp |
| TestSetSpec.TimeTexts | test_set_viz.py:424-426 | one time text per line holding "Z", in order |
| TestSetSpec.ParseAll | test_set_viz.py:426 | every text parsed in order, or ValueError if one fails |
| TestSetSpec.Flags | test_set_viz.py:425 | the 0/1 lines read as booleans, in order |
| TestSetSpec.ValidityUpdate | test_set_viz.py:420-427 | an unknown prereq ID is a ValueError; otherwise the file's samples replace that ID's entry and nothing else changes |
| TestSetSpec.ResultLines | test_set_viz.py:440 | the result lines are lines that carry one of the two messages, empty iff there are none |
| TestSetSpec.ResultLinesFirst | test_set_viz.py:440-441 | entry 0 is the first line carrying a message |
| TestSetSpec.ResultCode | test_set_viz.py:453 | the code is a suffix of field 2, and it never starts with a character of the final-result message |
| TestSetSpec.ResultCodeIsTwoStrips | test_set_viz.py:453 | the result code is two `lstrip` calls with character sets, not prefix removals |
| TestSetSpec.ResultCodeKeepsVerdict | test_set_viz.py:453 | a verdict starting with a character of neither message comes out whole |
| TestSetSpec.ResultCodeAfterFinal | test_set_viz.py:453 | after the final-result message's characters, a code starting with none of them comes out whole |
| TestSetSpec.ReadResult | test_set_viz.py:451-454 | the record is the parsed field 1 without 6 characters plus the stripped field 2; a missing field is an IndexError and an unparsable time a ValueError, the time being read first |
| TestSetSpec.RecordResult | test_set_viz.py:442-454 | the entry is created before the fields are read and holds the record, or stays as it was (new entries empty) when reading fails; no other entry changes |
| TestSetSpec.SetResult | test_set_viz.py:440-441 | a test log with no result line raises IndexError and changes nothing |
| TestSetSpec.ReadResultRoundTrip | test_set_viz.py:451-453 | fields "prefix", "stamp+6-char offset" and message read as the parsed stamp and the message's result code |
| TestSetSpec.SetResultReadsFirst | test_set_viz.py:440-441 | only the first result line counts |
| TestSetSpec.SegmentsOf | test_set_viz.py:441 | "a - b - c" splits into exactly [a, b, c] |
| TestSetSpec.SafetySetAsWritten | test_set_viz.py:114-122 | as written, only a log without prereq-list lines yields a safety set (the empty one) |
| TestSetSpec.SafetySetAsWrittenNeverBuilds | test_set_viz.py:117-122 | a log with a prereq-list line fails as written, while the per-segment reading builds the safety set |
| TestSetViz.TestSet.constructor | test_set_viz.py:35-71 | the version selects the markers; the validity data and result records start empty |
| TestSetViz.TestSet.GetPrereqIDs | test_set_viz.py:87-97 | the distinct prereq IDs of the log, in first-appearance order |
| TestSetViz.TestSet.IsPrereqValid | test_set_viz.py:148-170 | the guard, the elif chain and the read compute `Validity.IsPrereqValid` on the object's validity data |
| TestSetViz.TestSet.SafetyBox | test_set_viz.py:130-144 | one pass of the box loop updates counters and dict as one fold step does |
| TestSetViz.TestSet.SafetyBoxes | test_set_viz.py:130-144 | the box loop's counters and dict are those of the fold over the boxes, or its exception |
| TestSetViz.TestSet.SafetySegment | test_set_viz.py:122-144 | one provider segment updates counters and dict as one segment step does |
| TestSetViz.TestSet.SafetySegments | test_set_viz.py:118-144 | the segment loop follows the fold over the segments |
| TestSetViz.TestSet.GetSafetySet | test_set_viz.py:99-146 | the dict is `Validity.SafetySet` of the log, the validity data and the flag |
| TestSetViz.TestSet.TouchResult | test_set_viz.py:199-209 | the result records become `Touch` of the old ones |
| TestSetViz.TestSet.RecordTestSegments | test_set_viz.py:185-209 | the segment loop appends one timestamp per segment and registers its pending record |
| TestSetViz.TestSet.GetTestSet | test_set_viz.py:178-211 | the dict is the timeline of the running-line events; the records registered before a failure stay registered |
| TestSetViz.TestSet.DistinctTests | test_set_viz.py:237-241 | the distinct test names of the segments, in first-appearance order |
| TestSetViz.TestSet.GetTestList | test_set_viz.py:234-242 | the result is `TestList` of the log |
| TestSetViz.TestSet.CountTests | test_set_viz.py:224-230 | the inner loop computes `AddTests` |
| TestSetViz.TestSet.GetTestCount | test_set_viz.py:213-232 | the result is `TestCount` of the log |
| TestSetViz.TestSet.SetPrereqValidityData | test_set_viz.py:409-427 | on failure the data is unchanged and the error is returned; otherwise the data becomes `ValidityUpdate` |
| TestSetViz.TestSet.SetTestResult | test_set_viz.py:429-454 | the records and error are those of `SetResult` |
| CsvTest.CountLines | csvTest.py:18-22 | the count is the number of items |
| CsvTest.Position | csvTest.py:56 | a negative index counts from the end of the row |
| CsvTest.Column | csvTest.py:48-57 | IndexError iff some row is too short; otherwise one value per row, `row[i_col]`, in order |
| CsvTest.GetColList | csvTest.py:48-57 | the loop computes `Column` |
| CsvTest.ColumnErrSticks | csvTest.py:55-56 | a short row ends the loop; later rows change nothing |
| CsvTest.ColumnNegative | csvTest.py:56 | on a rectangular table of width w, column c - w is column c |
| CsvTest.ZeroIndices | csvTest.py:79-82 | exactly the indices of zero lengths, increasing |
| CsvTest.FindEmpty | csvTest.py:69-83 | IndexError iff an empty file has no name; otherwise the indices are `ZeroIndices`, and the names list has the same length and holds `filenames[i]` at each index |
| CsvTest.SeparatorError | csvTest.py:94-97 | the separators are accepted iff there are two and neither is empty |
| CsvTest.SitePart | csvTest.py:94-97 | the site part holds neither separator |
| CsvTest.SitePartWhole | csvTest.py:94-97 | a name with neither separator is its own site part |
| CsvTest.SitePartOf | csvTest.py:94-97 | the site part is the text between the last first separator and the next second separator |
| CsvTest.SiteParts | csvTest.py:92-97 | one site part per file name, in order |
| CsvTest.UniqueList | csvTest.py:85-102 | no names gives []; a separator error is raised; otherwise the result is duplicate-free and holds exactly the site parts |
| CsvTest.SitePartsMembers | csvTest.py:92-97 | the site parts are exactly those of the listed names |
| CsvTest.GetUniqueList | csvTest.py:85-102 | the loop computes `UniqueList` |
| BBData.Filtered | bbdata.py:279-281 | filtering never lengthens the list |
| BBData.FilteredMembers | bbdata.py:279-281 | a name survives iff it is listed and contains every keyword |
| BBData.FilteredAppend | bbdata.py:279-281 | the filter works name by name: filtering a concatenation concatenates the filtered parts, so order is kept |
| BBData.FilteredSingle | bbdata.py:280-281 | a single name is kept exactly when it contains every keyword |
| BBData.FilteredNone | bbdata.py:271-272 | with no keyword left, the list is returned unchanged |
| BBData.FilteredThen | bbdata.py:278-285 | filtering by one keyword and then the rest is filtering by all of them |
| BBData.FilteredOccurrences | bbdata.py:279-281 | a matching name keeps all its copies, in the same number |
| BBData.FilterRecur | bbdata.py:266-285 | with `count >= len(filterList)` the input is returned; otherwise the order-preserving subsequence containing every keyword of `filterList[count:]` |
| BBData.UnionOf | bbdata.py:231-233 | the union of an empty base is empty, and a single union keyword is the plain filter |
| BBData.UnionMembers | bbdata.py:231-233 | a name is in the union iff it is in the base and contains some union keyword |
| BBData.UnionOccurrences | bbdata.py:231-233 | the union holds each name once per copy in the base and per keyword it contains, so a double match appears twice |
| BBData.Narrowed | bbdata.py:221-239 | with no keyword in either list the half is empty; with union keywords alone, the union filters the full list |
| BBData.NarrowedMembers | bbdata.py:221-239 | one half of the filter keeps exactly the names holding every intersection keyword (no union keywords), or some union keyword, within the intersection when it matched |
| BBData.NarrowedFallsBack | bbdata.py:227-230 | an intersection that matches nothing is dropped, and the union filters the full list |
| BBData.NarrowNames | bbdata.py:221-239 | the repeated block computes `Narrowed` |
| BBData.FilterData | bbdata.py:190-264 | the result is the keyword half followed by the prereq half, each filtered from the full list; all four lists empty give []; only listed names come out |
| BBData.CeilDiv | bbdata.py:362 | the ceiling of the division: the least q with `q * b >= a` |
| BBData.GridSize | bbdata.py:362-364 | no trend divides by zero; otherwise 1 to 5 rows, enough cells for the subplots and enough subplots of 5 for the trends, with no spare subplot |
| BBData.SubplotChunks | bbdata.py:373-391 | the chunks tile 0..n in order, at most 5 trends each, no more chunks than grid cells |
| BBData.TilesAppend | bbdata.py:378-380 | one more chunk continues the tiling |
| BBData.TilesCover | bbdata.py:373-391 | every trend lies in exactly one subplot |
| BBData.StartsGrow | bbdata.py:378-380 | a later chunk starts no earlier than an earlier one stops |

## Left out

- **File and console I/O.** The constructor's `open`, the setters' `read_log`, `glob`, `csv` and `raw_input` are not modelled. The constructor takes the log as lines. `set_prereq_validity_data` and `set_test_result` take the file's lines.
- **`read_log` is commented out** (test_set_viz.py:82-85). As written, both setters raise AttributeError before reading. The model treats them as if the method existed.
- **Datetime parsing.** `datetime.strptime` is the parameter `parse`. Only the slicing of its text is modelled.
- **Plotting.** All matplotlib calls are left out, including `plot_test_timeline`, `plot_test_count`, `plotTimeline`, the drawing in `make_subplot` and `plot_test_set_data`.
- Layout.MapBoxesToAxis: does not model the float offsets of `numpy.linspace`, only their number and the row each box gets.
- **`get_start_end`.** It works on pandas float indexes, which are outside the model.
- **Unsupported versions.** The `TestSet` constructor raises KeyError for a version other than "v1.0" or "v1.1". `Version` has only those two values.
- **`scheduler_graph.py` markers.** The "for production" pair of markers (lines 51-52) sits inside a string literal (lines 49-53) and assigns nothing. The "for development" pair on lines 55-56, the v1.1 markers, is the script's only assignment and the one modelled.
- **`get_scheduled`** never terminates (test_set_viz.py:172-176).
- **`get_parsed_list`** is incomplete (bbdata.py:171-176). `CsvTest.GetUniqueList` models its working counterpart.
- **Other unmodelled functions.**
  - `get_start_stop_time`, `getStartStopTime` and `getShortRefName`.
  - The string-literal functions at the end of `scheduler_graph.py`.
  - `get_file_info`, `unpack_file`, `get_files` and `get_file_lengths`.
  - The `isContextPlot` branch of `make_subplot`, which does nothing.
  - The module-level script code, and `export_csv.py`, which is database queries and file writes.
- BBData.FilterRecur: takes `count` as a natural number, because every caller passes 0. A negative `count` would index `filterList` from the end.
- BBData.FilterRecur: the console warning for an empty list is not modelled. The list is returned unchanged, as in the source.
- BBData.GridSize: computes the ceiling exactly. The source's float division agrees only while the trend count is exactly representable as a float.
- TestSetSpec.TestCountShape: assumes that no test is named "all". A test of that name would share the series of all running tests.
- TestSetSpec.TestCountSamples: assumes that no test is named "all", for the same reason.
- TestSetSpec.ResultCodeKeepsVerdict: covers only verdicts that start with a character of neither message, such as "Result: passed". Because `lstrip` takes a character set, a bare "failed" comes out as "d".
- LogParse.RunningSegments and LogParse.PrereqSegments: promise only the timestamp segment. Their contents are stated through `RefNames`, `TestOnBox` and the event lemmas built on them.

## Findings

| source | as written | input that shows it | evidently intended | confidence | as-written member | corrected member |
|---|---|---|---|---|---|---|
| test_set_viz.py:117-122 | each prereq-list line is cut with `rstrip('{')`, and the whole list of provider segments `entry[1:]` goes to `get_ref_names`, which calls `partition` on it | any log holding a line with "{<PrereqMachine: " and a readable timestamp raises AttributeError, so `get_safety_set` never returns a non-empty dict | strip the closing '}' and parse each provider segment on its own, as `scheduler_graph.getSafetySet` does (scheduler_graph.py:111-126) | high; not executed | TestSetSpec.SafetySetAsWrittenNeverBuilds | TestSetViz.TestSet.GetSafetySet |
