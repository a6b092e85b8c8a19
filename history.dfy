/**
 * The history shown across all pools, `globalHistory` (App.tsx:385): every
 * pool's events, merged, newest first, cut to the history limit.
 */
module History {
  import opened Types
  import opened Seqs

  /** `pools.flatMap(p => p.history)` */
  function AllEvents(pools: seq<DicePool>): (r: seq<RollEvent>)
    ensures forall e :: e in r ==> exists i :: 0 <= i < |pools| && e in pools[i].history
    ensures forall i, e :: 0 <= i < |pools| && e in pools[i].history ==> e in r
    ensures pools != [] ==> |pools[0].history| <= |r| && r[..|pools[0].history|] == pools[0].history
    ensures forall i :: 0 <= i < |pools| ==> multiset(pools[i].history) <= multiset(r)
  {
    if pools == [] then []
    else
      var rest := AllEvents(pools[1..]);
      assert forall i :: 1 <= i < |pools| ==> pools[i] == pools[1..][i - 1];
      pools[0].history + rest
  }

  /** Places `e` after every event at least as new as it, so equal timestamps keep their order. */
  function InsertByTime(sorted: seq<RollEvent>, e: RollEvent): (r: seq<RollEvent>)
    requires NewestFirst(sorted)
    ensures NewestFirst(r)
    ensures multiset(r) == multiset(sorted) + multiset{e}
  {
    if sorted == [] then [e]
    else if sorted[0].timestamp >= e.timestamp then
      var rest := InsertByTime(sorted[1..], e);
      assert sorted == [sorted[0]] + sorted[1..];
      AtMostFirst(sorted, rest, e);
      NewestFirstCons(sorted[0], rest);
      [sorted[0]] + rest
    else
      NewestFirstCons(e, sorted);
      [e] + sorted
  }

  /** An event no older than every event of a newest-first list can go in front of it. */
  lemma NewestFirstCons(x: RollEvent, rest: seq<RollEvent>)
    requires NewestFirst(rest)
    requires forall i :: 0 <= i < |rest| ==> rest[i].timestamp <= x.timestamp
    ensures NewestFirst([x] + rest)
  {
    var s := [x] + rest;
    forall i, j | 0 <= i < j < |s|
      ensures s[i].timestamp >= s[j].timestamp
    {
      assert s[j] == rest[j - 1];
      if i > 0 {
        assert s[i] == rest[i - 1];
      }
    }
  }

  lemma AtMostFirst(sorted: seq<RollEvent>, rest: seq<RollEvent>, e: RollEvent)
    requires sorted != [] && NewestFirst(sorted) && e.timestamp <= sorted[0].timestamp
    requires multiset(rest) == multiset(sorted[1..]) + multiset{e}
    ensures forall i :: 0 <= i < |rest| ==> rest[i].timestamp <= sorted[0].timestamp
  {
    forall i | 0 <= i < |rest|
      ensures rest[i].timestamp <= sorted[0].timestamp
    {
      assert rest[i] in multiset(rest);
      if rest[i] != e {
        assert rest[i] in multiset(sorted[1..]);
        var j :| 0 <= j < |sorted[1..]| && sorted[1..][j] == rest[i];
        assert sorted[j + 1] == rest[i];
      }
    }
  }

  /** `.sort((a, b) => b.timestamp - a.timestamp)`, a stable sort. */
  function SortNewestFirst(s: seq<RollEvent>): (r: seq<RollEvent>)
    ensures NewestFirst(r)
    ensures multiset(r) == multiset(s)
  {
    if s == [] then []
    else
      assert s == s[..|s| - 1] + [s[|s| - 1]];
      InsertByTime(SortNewestFirst(s[..|s| - 1]), s[|s| - 1])
  }

  function StampedAt(t: int): RollEvent -> bool {
    (e: RollEvent) => e.timestamp == t
  }

  /** The events of `s` stamped `t`, in their order in `s`. */
  function AtTime(s: seq<RollEvent>, t: int): seq<RollEvent> {
    Filter(s, StampedAt(t))
  }

  /** Inserting `e` puts it after every event of the list that has its timestamp. */
  lemma {:induction false} InsertKeepsTies(sorted: seq<RollEvent>, e: RollEvent, t: int)
    requires NewestFirst(sorted)
    ensures AtTime(InsertByTime(sorted, e), t) == AtTime(sorted, t) + (if e.timestamp == t then [e] else [])
    decreases |sorted|, 1
  {
    if sorted == [] {
      assert InsertByTime(sorted, e) == [e];
      AtTimeCons(e, [], t);
    } else if sorted[0].timestamp >= e.timestamp {
      InsertBehindKeepsTies(sorted, e, t);
    } else {
      InsertInFront(sorted, e);
      AtTimeCons(e, sorted, t);
      if e.timestamp == t {
        NoneStampedAfterNewer(sorted, t);
      }
    }
  }

  lemma {:induction false} InsertBehindKeepsTies(sorted: seq<RollEvent>, e: RollEvent, t: int)
    requires NewestFirst(sorted) && sorted != [] && sorted[0].timestamp >= e.timestamp
    ensures AtTime(InsertByTime(sorted, e), t) == AtTime(sorted, t) + (if e.timestamp == t then [e] else [])
    decreases |sorted|, 0
  {
    var mine := if e.timestamp == t then [e] else [];
    var head := if sorted[0].timestamp == t then [sorted[0]] else [];
    var rest := InsertByTime(sorted[1..], e);
    InsertBehind(sorted, e);
    calc {
      AtTime(InsertByTime(sorted, e), t);
      AtTime([sorted[0]] + rest, t);
      { AtTimeCons(sorted[0], rest, t); }
      head + AtTime(rest, t);
      { InsertKeepsTies(sorted[1..], e, t); }
      head + (AtTime(sorted[1..], t) + mine);
      { AppendAssociates(head, AtTime(sorted[1..], t), mine); }
      head + AtTime(sorted[1..], t) + mine;
      { AtTimeCons(sorted[0], sorted[1..], t); assert [sorted[0]] + sorted[1..] == sorted; }
      AtTime(sorted, t) + mine;
    }
  }

  lemma InsertBehind(sorted: seq<RollEvent>, e: RollEvent)
    requires NewestFirst(sorted) && sorted != [] && sorted[0].timestamp >= e.timestamp
    ensures NewestFirst(sorted[1..])
    ensures InsertByTime(sorted, e) == [sorted[0]] + InsertByTime(sorted[1..], e)
  {
  }

  lemma InsertInFront(sorted: seq<RollEvent>, e: RollEvent)
    requires NewestFirst(sorted) && sorted != [] && sorted[0].timestamp < e.timestamp
    ensures InsertByTime(sorted, e) == [e] + sorted
  {
  }

  lemma AtTimeCons(x: RollEvent, s: seq<RollEvent>, t: int)
    ensures AtTime([x] + s, t) == (if x.timestamp == t then [x] else []) + AtTime(s, t)
  {
    assert ([x] + s)[0] == x && ([x] + s)[1..] == s;
  }

  /** A newest-first list whose newest event is older than `t` has nothing stamped `t`. */
  lemma NoneStampedAfterNewer(sorted: seq<RollEvent>, t: int)
    requires NewestFirst(sorted) && sorted != [] && sorted[0].timestamp < t
    ensures AtTime(sorted, t) == []
  {
    assert forall i :: 0 <= i < |sorted| ==> !StampedAt(t)(sorted[i]);
    FilterKeepsNone(sorted, StampedAt(t));
  }

  /**
   * The sort is stable: the events that share a timestamp come out in the
   * order they went in.
   */
  lemma {:induction false} SortKeepsTies(s: seq<RollEvent>, t: int)
    ensures AtTime(SortNewestFirst(s), t) == AtTime(s, t)
  {
    if s != [] {
      var init := s[..|s| - 1];
      var last := s[|s| - 1];
      var sortedInit := SortNewestFirst(init);
      var tail := if last.timestamp == t then [last] else [];
      calc {
        AtTime(SortNewestFirst(s), t);
        { SortStep(s); }
        AtTime(InsertByTime(sortedInit, last), t);
        { InsertKeepsTies(sortedInit, last, t); }
        AtTime(sortedInit, t) + tail;
        { SortKeepsTies(init, t); }
        AtTime(init, t) + tail;
        { FilterAppend(init, last, StampedAt(t)); }
        AtTime(init + [last], t);
        { assert s == init + [last]; }
        AtTime(s, t);
      }
    }
  }

  lemma SortStep(s: seq<RollEvent>)
    requires s != []
    ensures SortNewestFirst(s) == InsertByTime(SortNewestFirst(s[..|s| - 1]), s[|s| - 1])
  {
  }

  /**
   * `globalHistory`: at most the history limit of events, newest first, all
   * taken from the pools' histories, and none left out is newer than one
   * kept.
   */
  function GlobalHistory(pools: seq<DicePool>): (r: seq<RollEvent>)
    ensures |r| == if |AllEvents(pools)| < HISTORY_LIMIT then |AllEvents(pools)| else HISTORY_LIMIT
    ensures NewestFirst(r)
    ensures multiset(r) <= multiset(AllEvents(pools))
    ensures forall e :: e in multiset(AllEvents(pools)) - multiset(r) ==>
      forall i :: 0 <= i < |r| ==> e.timestamp <= r[i].timestamp
    ensures |r| <= |SortNewestFirst(AllEvents(pools))| && r == SortNewestFirst(AllEvents(pools))[..|r|]
  {
    var sorted := SortNewestFirst(AllEvents(pools));
    assert |sorted| == |AllEvents(pools)| by {
      assert |multiset(sorted)| == |multiset(AllEvents(pools))|;
    }
    var k := if |sorted| < HISTORY_LIMIT then |sorted| else HISTORY_LIMIT;
    TakeNewest(sorted, k);
    sorted[..k]
  }

  /** Cutting a newest-first list keeps the newest events and drops only older ones. */
  lemma TakeNewest(sorted: seq<RollEvent>, k: nat)
    requires NewestFirst(sorted) && k <= |sorted|
    ensures NewestFirst(sorted[..k])
    ensures multiset(sorted[..k]) <= multiset(sorted)
    ensures forall e :: e in multiset(sorted) - multiset(sorted[..k]) ==>
      forall i :: 0 <= i < |sorted[..k]| ==> e.timestamp <= sorted[..k][i].timestamp
  {
    assert sorted == sorted[..k] + sorted[k..];
    assert multiset(sorted) - multiset(sorted[..k]) == multiset(sorted[k..]);
    forall e | e in multiset(sorted[k..])
      ensures forall i :: 0 <= i < k ==> e.timestamp <= sorted[..k][i].timestamp
    {
      DroppedIsOlder(sorted, k, e);
    }
  }

  /** An event after position `k` of a newest-first list is no newer than any before it. */
  lemma DroppedIsOlder(sorted: seq<RollEvent>, k: nat, e: RollEvent)
    requires NewestFirst(sorted) && k <= |sorted| && e in multiset(sorted[k..])
    ensures forall i :: 0 <= i < k ==> e.timestamp <= sorted[i].timestamp
  {
    var j :| 0 <= j < |sorted[k..]| && sorted[k..][j] == e;
    assert sorted[k + j] == e;
  }


  lemma PrefixKeepsTies(s: seq<RollEvent>, k: nat, t: int)
    requires k <= |s|
    ensures var kept := AtTime(s[..k], t);
      |kept| <= |AtTime(s, t)| && kept == AtTime(s, t)[..|kept|]
  {
    assert s == s[..k] + s[k..];
    FilterConcat(s[..k], s[k..], StampedAt(t));
  }

  /**
   * Of the events that share a timestamp, the merged history keeps the ones
   * listed first across the pools (pool order, then each pool's history
   * order), in that order.
   */
  lemma GlobalHistoryKeepsTiesInOrder(pools: seq<DicePool>, t: int)
    ensures var kept := AtTime(GlobalHistory(pools), t);
      |kept| <= |AtTime(AllEvents(pools), t)| && kept == AtTime(AllEvents(pools), t)[..|kept|]
  {
    var all := AllEvents(pools);
    var sorted := SortNewestFirst(all);
    var r := GlobalHistory(pools);
    PrefixKeepsTies(sorted, |r|, t);
    SortKeepsTies(all, t);
  }

  /** Every event in the merged history is an event of some pool. */
  lemma GlobalHistoryFromPools(pools: seq<DicePool>, k: nat)
    requires k < |GlobalHistory(pools)|
    ensures exists i :: 0 <= i < |pools| && GlobalHistory(pools)[k] in pools[i].history
  {
    var r := GlobalHistory(pools);
    assert r[k] in multiset(r);
    assert r[k] in multiset(AllEvents(pools));
    assert r[k] in AllEvents(pools);
  }
}
