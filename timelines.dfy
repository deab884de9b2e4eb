/**
 * The nested timelines both scripts accumulate: box -> tag -> timestamps,
 * filled by "create the inner dict if missing, create the list if missing,
 * append" (the `try: d[box] except KeyError: d[box] = {}` idiom).
 */
module Timelines {

  /** A parsed timestamp. Parsing itself is outside the model; only order matters. */
  type Time = int

  /**
   * One occurrence of `tag` on `box` at `time`. Its keys are created in any
   * case; the timestamp is appended only when `keep` holds (the validity filter).
   */
  datatype Event = Event(box: string, tag: string, time: Time, keep: bool)

  type Timeline = map<string, map<string, seq<Time>>>

  /** The list stored under `d[box][tag]`, or [] when either key is missing. */
  function Lookup(d: Timeline, box: string, tag: string): seq<Time>
  {
    if box in d && tag in d[box] then d[box][tag] else []
  }

  /** Get-or-create `d[box][tag]`, then append the timestamp when the event is kept. */
  function Record(d: Timeline, e: Event): (r: Timeline)
    ensures r.Keys == d.Keys + {e.box}
    ensures r[e.box].Keys == (if e.box in d then d[e.box].Keys else {}) + {e.tag}
    ensures forall b :: b in d && b != e.box ==> r[b] == d[b]
    ensures Lookup(r, e.box, e.tag) == Lookup(d, e.box, e.tag) + (if e.keep then [e.time] else [])
    ensures forall b, l :: b != e.box || l != e.tag ==> Lookup(r, b, l) == Lookup(d, b, l)
  {
    var inner := if e.box in d then d[e.box] else map[];
    var times := if e.tag in inner then inner[e.tag] else [];
    d[e.box := inner[e.tag := times + (if e.keep then [e.time] else [])]]
  }

  /**
   * The idiom `try: d[box] except KeyError: d[box] = {}`, the same for
   * `d[box][tag]`, then the append when the event is kept.
   */
  method RecordEvent(d: Timeline, e: Event) returns (r: Timeline)
    ensures r == Record(d, e)
  {
    ghost var inner := if e.box in d then d[e.box] else map[];
    ghost var times := if e.tag in inner then inner[e.tag] else [];
    r := d;
    if e.box !in r {
      r := r[e.box := map[]];
    }
    if e.tag !in r[e.box] {
      r := r[e.box := r[e.box][e.tag := []]];
    }
    if e.keep {
      r := r[e.box := r[e.box][e.tag := r[e.box][e.tag] + [e.time]]];
    }
    assert times + [] == times;
    assert r[e.box][e.tag] == times + (if e.keep then [e.time] else []);
    assert r[e.box].Keys == inner.Keys + {e.tag};
    assert forall l :: l in inner && l != e.tag ==> r[e.box][l] == inner[l];
    assert r[e.box] == inner[e.tag := times + (if e.keep then [e.time] else [])];
    assert r == d[e.box := r[e.box]];
  }

  lemma RecordAllSnoc(d: Timeline, events: seq<Event>, e: Event)
    ensures RecordAll(d, events + [e]) == Record(RecordAll(d, events), e)
  {
    assert (events + [e])[..|events|] == events;
  }

  /** Recording `events` in order into `d`. */
  function RecordAll(d: Timeline, events: seq<Event>): Timeline
  {
    if events == [] then d else Record(RecordAll(d, events[..|events| - 1]), events[|events| - 1])
  }

  /** The timeline that recording `events` in order into an empty dict produces. */
  function Build(events: seq<Event>): Timeline
  {
    RecordAll(map[], events)
  }

  /** Recording two batches one after the other is recording their concatenation. */
  lemma {:induction false} RecordAllAppend(d: Timeline, a: seq<Event>, b: seq<Event>)
    ensures RecordAll(d, a + b) == RecordAll(RecordAll(d, a), b)
    decreases |b|
  {
    if b == [] {
      assert a + b == a;
    } else {
      assert (a + b)[..|a + b| - 1] == a + b[..|b| - 1];
      RecordAllAppend(d, a, b[..|b| - 1]);
    }
  }

  lemma BuildSnoc(events: seq<Event>, e: Event)
    ensures Build(events + [e]) == Record(Build(events), e)
  {
    assert (events + [e])[..|events|] == events;
  }

  /** The timestamps of the kept events for (box, tag), in event order. */
  function Times(events: seq<Event>, box: string, tag: string): (ts: seq<Time>)
    ensures |ts| <= |events|
  {
    if events == [] then []
    else
      var e := events[|events| - 1];
      Times(events[..|events| - 1], box, tag)
        + (if e.box == box && e.tag == tag && e.keep then [e.time] else [])
  }

  /** Some event names `box`. */
  predicate MentionsBox(events: seq<Event>, box: string)
  {
    exists e :: e in events && e.box == box
  }

  /** Some event names the pair (box, tag). */
  predicate MentionsPair(events: seq<Event>, box: string, tag: string)
  {
    exists e :: e in events && e.box == box && e.tag == tag
  }

  /**
   * Nothing is lost, duplicated or reordered: the list under (box, tag) is
   * exactly the kept timestamps of the events naming that pair, in order.
   */
  lemma {:induction false} BuildLookup(events: seq<Event>, box: string, tag: string)
    ensures Lookup(Build(events), box, tag) == Times(events, box, tag)
  {
    if events != [] {
      BuildLookup(events[..|events| - 1], box, tag);
    }
  }

  /**
   * The keys are exactly what the events name: a box appears iff some event
   * names it, a tag under a box iff some event names the pair, whether or
   * not its timestamp was kept.
   */
  lemma {:induction false} BuildKeys(events: seq<Event>)
    ensures forall b :: b in Build(events) <==> MentionsBox(events, b)
    ensures forall b, l :: b in Build(events) ==> (l in Build(events)[b] <==> MentionsPair(events, b, l))
  {
    if events != [] {
      var p, e := events[..|events| - 1], events[|events| - 1];
      assert events == p + [e];
      BuildKeys(p);
      forall b ensures MentionsBox(events, b) <==> MentionsBox(p, b) || b == e.box {
        if MentionsBox(events, b) && b != e.box {
          var x :| x in events && x.box == b;
          assert x in p;
        }
      }
      forall b, l ensures MentionsPair(events, b, l) <==> MentionsPair(p, b, l) || (b == e.box && l == e.tag) {
        if MentionsPair(events, b, l) && (b != e.box || l != e.tag) {
          var x :| x in events && x.box == b && x.tag == l;
          assert x in p;
        }
      }
    }
  }

  /**
   * Accumulation is append-only: recording more events never removes a key
   * and only extends every existing list at its end.
   */
  lemma {:induction false} BuildExtends(events: seq<Event>, more: seq<Event>, box: string, tag: string)
    ensures Build(events).Keys <= Build(events + more).Keys
    ensures Lookup(Build(events), box, tag) <= Lookup(Build(events + more), box, tag)
    decreases |more|
  {
    if more != [] {
      var p := more[..|more| - 1];
      assert events + more == (events + p) + [more[|more| - 1]];
      BuildSnoc(events + p, more[|more| - 1]);
      BuildExtends(events, p, box, tag);
    } else {
      assert events + more == events;
    }
  }

  /** Events that are not kept contribute no timestamp. */
  lemma {:induction false} TimesUnkept(events: seq<Event>, box: string, tag: string)
    requires forall k :: 0 <= k < |events| ==> !events[k].keep
    ensures Times(events, box, tag) == []
  {
    if events != [] {
      TimesUnkept(events[..|events| - 1], box, tag);
    }
  }
}
