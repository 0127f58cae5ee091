/** The availability diff: a cache of every listing seen since start, and the
    update that walks a freshly read table against it, reporting listings
    that became available or unavailable. */
module Differ {
  import opened Listings
  import opened OrderedMaps

  /** Listings reported by one update, under their keys, in report order. */
  type ChangeMap = OrderedMap<Raspberry>

  /** What an update hands to the alerting code: the filtered table and the
      two change maps. */
  datatype Changes = Changes(
    raspberryList: seq<Raspberry>,
    nowAvailable: ChangeMap,
    nowUnavailable: ChangeMap)

  /** The state of an update part-way through the table. */
  datatype Progress = Progress(
    cache: map<string, Raspberry>,
    nowAvailable: ChangeMap,
    nowUnavailable: ChangeMap)

  /** The keys of the listings of a table. */
  function KeySet(list: seq<Raspberry>): set<string> {
    set r | r in list :: Key(r)
  }

  /** No two listings of the table share a key. */
  ghost predicate DistinctKeys(list: seq<Raspberry>) {
    forall i, j :: 0 <= i < j < |list| ==> Key(list[i]) != Key(list[j])
  }

  /** No later listing of the table has the key of `list[i]`. */
  ghost predicate IsLastOfKey(list: seq<Raspberry>, i: int)
    requires 0 <= i < |list|
  {
    forall j :: i < j < |list| ==> Key(list[j]) != Key(list[i])
  }

  /** `m` holds only listings of `list` whose availability is `available`,
      each under its own key. */
  ghost predicate Reports(m: ChangeMap, list: seq<Raspberry>, available: bool) {
    m.Valid() &&
    forall k :: k in m.entries ==>
      Key(m.entries[k]) == k && m.entries[k].available == available && m.entries[k] in list
  }

  /** The work the update does for one listing `r`. On the first cycle it only
      fills the cache. Later, a listing never seen before is reported as newly
      available when it is available; a cached one is reported when its
      availability flipped. Either way `r` takes over its cache slot. */
  function Visit(isFirstInit: bool, p: Progress, r: Raspberry): Progress {
    var key := Key(r);
    if isFirstInit then
      p.(cache := p.cache[key := r])
    else if key !in p.cache then
      p.(cache := p.cache[key := r],
         nowAvailable := if r.available then Set(p.nowAvailable, key, r) else p.nowAvailable)
    else
      var cached := p.cache[key];
      p.(cache := p.cache[key := r],
         nowAvailable := if r.available && !cached.available then Set(p.nowAvailable, key, r) else p.nowAvailable,
         nowUnavailable := if !r.available && cached.available then Set(p.nowUnavailable, key, r) else p.nowUnavailable)
  }

  /** The update after the listings of `list`, visited in table order. */
  function Run(isFirstInit: bool, cache: map<string, Raspberry>, list: seq<Raspberry>): Progress
    decreases |list|
  {
    if list == [] then Progress(cache, Empty(), Empty())
    else Visit(isFirstInit, Run(isFirstInit, cache, list[..|list| - 1]), list[|list| - 1])
  }

  /** A whole update: the cycle counts as the first one when the cache is empty. */
  function Diff(cache: map<string, Raspberry>, list: seq<Raspberry>): Progress {
    Run(|cache| == 0, cache, list)
  }

  /** Visiting one row leaves the order of each change map as it was or
      appends the row's key at the end. */
  lemma VisitExtendsOrder(isFirstInit: bool, p: Progress, r: Raspberry)
    requires p.nowAvailable.Valid() && p.nowUnavailable.Valid()
    ensures var q := Visit(isFirstInit, p, r);
      && (q.nowAvailable.keys == p.nowAvailable.keys || q.nowAvailable.keys == p.nowAvailable.keys + [Key(r)])
      && (q.nowUnavailable.keys == p.nowUnavailable.keys || q.nowUnavailable.keys == p.nowUnavailable.keys + [Key(r)])
  {
  }

  /** Each change map lists its keys in the order the walk first reported
      them: whatever the first `n` rows reported comes first, in the same
      order, and later rows only add keys after it. */
  lemma {:induction false} ReportOrderFollowsTable(isFirstInit: bool, cache: map<string, Raspberry>,
                                                   list: seq<Raspberry>, n: int)
    requires 0 <= n <= |list|
    ensures Run(isFirstInit, cache, list[..n]).nowAvailable.keys <= Run(isFirstInit, cache, list).nowAvailable.keys
    ensures Run(isFirstInit, cache, list[..n]).nowUnavailable.keys <= Run(isFirstInit, cache, list).nowUnavailable.keys
    decreases |list|
  {
    if n == |list| {
      assert list[..n] == list;
    } else {
      var init := list[..|list| - 1];
      assert init[..n] == list[..n];
      ReportOrderFollowsTable(isFirstInit, cache, init, n);
      ChangesComeFromTable(isFirstInit, cache, init);
      VisitExtendsOrder(isFirstInit, Run(isFirstInit, cache, init), list[|list| - 1]);
    }
  }

  /** The module-level listing cache and the update that diffs against it. */
  class RaspberryCache {
    /** Every listing seen since start, under its key, as last seen. */
    var cache: map<string, Raspberry>

    constructor ()
      ensures cache == map[]
    {
      cache := map[];
    }

    /** Filters the parsed table by the model list, then visits each listing
        in table order, updating the cache and the two change maps. */
    method Update(models: seq<string>, rows: seq<Raspberry>) returns (changes: Changes)
      modifies this
      ensures changes.raspberryList == FilterBySku(models, rows)
      ensures Progress(cache, changes.nowAvailable, changes.nowUnavailable) == Diff(old(cache), changes.raspberryList)
    {
      var raspberryList := FilterBySku(models, rows);
      var isFirstInit := |cache| == 0;
      var nowAvailable: ChangeMap := Empty();
      var nowUnavailable: ChangeMap := Empty();
      var i := 0;
      while i < |raspberryList|
        invariant 0 <= i <= |raspberryList|
        invariant Progress(cache, nowAvailable, nowUnavailable) == Run(isFirstInit, old(cache), raspberryList[..i])
      {
        var raspberry := raspberryList[i];
        var raspberryKey := Key(raspberry);
        assert raspberryList[..i + 1][..i] == raspberryList[..i];
        if isFirstInit {
          cache := cache[raspberryKey := raspberry];
        } else if raspberryKey !in cache {
          cache := cache[raspberryKey := raspberry];
          if raspberry.available {
            nowAvailable := Set(nowAvailable, raspberryKey, raspberry);
          }
        } else {
          var cachedRaspberry := cache[raspberryKey];
          if raspberry.available && !cachedRaspberry.available {
            nowAvailable := Set(nowAvailable, raspberryKey, raspberry);
          }
          if !raspberry.available && cachedRaspberry.available {
            nowUnavailable := Set(nowUnavailable, raspberryKey, raspberry);
          }
          cache := cache[raspberryKey := raspberry];
        }
        i := i + 1;
      }
      assert raspberryList[..i] == raspberryList;
      changes := Changes(raspberryList, nowAvailable, nowUnavailable);
    }
  }

  lemma KeySetSnoc(list: seq<Raspberry>, r: Raspberry)
    ensures KeySet(list + [r]) == KeySet(list) + {Key(r)}
  {
    assert forall x :: x in list + [r] <==> x in list || x == r;
  }

  lemma InitOfSnoc(list: seq<Raspberry>)
    requires list != []
    ensures list == list[..|list| - 1] + [list[|list| - 1]]
  {
  }

  /** Both change maps only ever hold listings of the table, each under its
      own key: newly available ones are available, newly unavailable ones
      are not. */
  lemma {:induction false} ChangesComeFromTable(isFirstInit: bool, cache: map<string, Raspberry>, list: seq<Raspberry>)
    ensures Reports(Run(isFirstInit, cache, list).nowAvailable, list, true)
    ensures Reports(Run(isFirstInit, cache, list).nowUnavailable, list, false)
    decreases |list|
  {
    if list != [] {
      var init, last := list[..|list| - 1], list[|list| - 1];
      var p := Run(isFirstInit, cache, init);
      ChangesComeFromTable(isFirstInit, cache, init);
      InitOfSnoc(list);
      assert forall x :: x in init ==> x in list;
      ReportsGrow(p.nowAvailable, init, list, true);
      ReportsGrow(p.nowUnavailable, init, list, false);
      var q := Visit(isFirstInit, p, last);
      if q.nowAvailable != p.nowAvailable {
        SetReports(p.nowAvailable, list, true, last);
      }
      if q.nowUnavailable != p.nowUnavailable {
        SetReports(p.nowUnavailable, list, false, last);
      }
    }
  }

  lemma ReportsGrow(m: ChangeMap, list: seq<Raspberry>, list': seq<Raspberry>, available: bool)
    requires Reports(m, list, available)
    requires forall x :: x in list ==> x in list'
    ensures Reports(m, list', available)
  {
    forall k | k in m.entries ensures m.entries[k] in list' {
      assert m.entries[k] in list;
    }
  }

  lemma SetReports(m: ChangeMap, list: seq<Raspberry>, available: bool, r: Raspberry)
    requires Reports(m, list, available)
    requires r in list && r.available == available
    ensures Reports(Set(m, Key(r), r), list, available)
  {
  }

  /** A key whose listing is not in the table is never reported: a listing
      that disappears from the source produces no alert. */
  lemma VanishedIsNeverReported(cache: map<string, Raspberry>, list: seq<Raspberry>, k: string)
    requires k !in KeySet(list)
    ensures k !in Diff(cache, list).nowAvailable.entries
    ensures k !in Diff(cache, list).nowUnavailable.entries
  {
    VanishedNotInRun(|cache| == 0, cache, list, k);
  }

  /** After an update the cache is as `CacheFacts` describes. */
  lemma {:induction false} CacheAfterRun(isFirstInit: bool, cache: map<string, Raspberry>, list: seq<Raspberry>)
    ensures CacheFacts(cache, list, Run(isFirstInit, cache, list).cache)
    decreases |list|
  {
    if list != [] {
      var init, last := list[..|list| - 1], list[|list| - 1];
      var p := Run(isFirstInit, cache, init);
      CacheAfterRun(isFirstInit, cache, init);
      InitOfSnoc(list);
      assert Run(isFirstInit, cache, list).cache == p.cache[Key(last) := last];
      CacheStep(cache, init, last, p.cache);
    }
  }

  /** What an update leaves in the cache: every key it held before and every
      key of the table; each key of the table bound to the last listing of
      the table with that key, and every other key to its old listing. */
  ghost predicate CacheFacts(cache: map<string, Raspberry>, list: seq<Raspberry>, after: map<string, Raspberry>) {
    && after.Keys == cache.Keys + KeySet(list)
    && (forall i :: 0 <= i < |list| && IsLastOfKey(list, i) ==> after[Key(list[i])] == list[i])
    && (forall k :: k in cache && k !in KeySet(list) ==> after[k] == cache[k])
  }

  lemma CacheStep(cache: map<string, Raspberry>, init: seq<Raspberry>, last: Raspberry, before: map<string, Raspberry>)
    requires CacheFacts(cache, init, before)
    ensures CacheFacts(cache, init + [last], before[Key(last) := last])
  {
    var list, after := init + [last], before[Key(last) := last];
    KeySetSnoc(init, last);
    forall i | 0 <= i < |list| && IsLastOfKey(list, i) ensures after[Key(list[i])] == list[i] {
      if i < |init| {
        assert list[i] == init[i];
        assert Key(list[i]) != Key(last) by {
          assert list[|init|] == last;
        }
        assert IsLastOfKey(init, i) by {
          forall j | i < j < |init| ensures Key(init[j]) != Key(init[i]) {
            assert list[j] == init[j];
          }
        }
      }
    }
  }

  /** An update never removes a key, so the cache never shrinks. */
  lemma CacheNeverShrinks(cache: map<string, Raspberry>, list: seq<Raspberry>)
    ensures cache.Keys <= Diff(cache, list).cache.Keys
    ensures |cache| <= |Diff(cache, list).cache|
  {
    CacheAfterRun(|cache| == 0, cache, list);
    var after := Diff(cache, list).cache;
    assert |cache.Keys| <= |after.Keys| by {
      SubsetCardinality(cache.Keys, after.Keys);
    }
  }

  lemma SubsetCardinality(a: set<string>, b: set<string>)
    requires a <= b
    ensures |a| <= |b|
  {
    assert b == a + (b - a);
  }

  /** On the first cycle nothing is reported, and afterwards every listing
      of the table is in the cache under its key. */
  lemma {:induction false} FirstCycleIsBaseline(cache: map<string, Raspberry>, list: seq<Raspberry>)
    requires |cache| == 0
    ensures Diff(cache, list).nowAvailable == Empty()
    ensures Diff(cache, list).nowUnavailable == Empty()
    ensures forall r :: r in list ==> Key(r) in Diff(cache, list).cache
  {
    FirstRunReportsNothing(cache, list);
    CacheAfterRun(true, cache, list);
  }

  lemma {:induction false} FirstRunReportsNothing(cache: map<string, Raspberry>, list: seq<Raspberry>)
    ensures Run(true, cache, list).nowAvailable == Empty()
    ensures Run(true, cache, list).nowUnavailable == Empty()
    decreases |list|
  {
    if list != [] {
      FirstRunReportsNothing(cache, list[..|list| - 1]);
    }
  }

  /** On a later cycle over a table without repeated keys, each listing is
      reported exactly as its history says. A listing whose key was not
      cached is reported newly available iff it is available, and never
      newly unavailable. A cached listing is reported newly available iff it
      is available now and was cached unavailable, and newly unavailable iff
      it is unavailable now and was cached available. */
  lemma {:induction false} ReportsFollowAvailability(cache: map<string, Raspberry>, list: seq<Raspberry>)
    requires |cache| > 0
    requires DistinctKeys(list)
    ensures forall r :: r in list && Key(r) !in cache ==>
              (Key(r) in Diff(cache, list).nowAvailable.entries <==> r.available) &&
              Key(r) !in Diff(cache, list).nowUnavailable.entries
    ensures forall r :: r in list && Key(r) in cache ==>
              (Key(r) in Diff(cache, list).nowAvailable.entries <==> r.available && !cache[Key(r)].available) &&
              (Key(r) in Diff(cache, list).nowUnavailable.entries <==> !r.available && cache[Key(r)].available)
  {
    LaterRunReports(cache, list);
    forall r | r in list ensures ReportedAsHistorySays(cache, r, Diff(cache, list).nowAvailable, Diff(cache, list).nowUnavailable) {
    }
  }

  /** How a later cycle reports listing `r` against the cache it started from. */
  ghost predicate ReportedAsHistorySays(cache: map<string, Raspberry>, r: Raspberry, nowAvailable: ChangeMap, nowUnavailable: ChangeMap) {
    var k := Key(r);
    if k !in cache then
      (k in nowAvailable.entries <==> r.available) && k !in nowUnavailable.entries
    else
      && (k in nowAvailable.entries <==> r.available && !cache[k].available)
      && (k in nowUnavailable.entries <==> !r.available && cache[k].available)
  }

  lemma {:induction false} LaterRunReports(cache: map<string, Raspberry>, list: seq<Raspberry>)
    requires DistinctKeys(list)
    ensures forall r :: r in list ==>
              ReportedAsHistorySays(cache, r, Run(false, cache, list).nowAvailable, Run(false, cache, list).nowUnavailable)
    decreases |list|
  {
    if list != [] {
      var init, last := list[..|list| - 1], list[|list| - 1];
      var p := Run(false, cache, init);
      assert DistinctKeys(init);
      LaterRunReports(cache, init);
      CacheAfterRun(false, cache, init);
      InitOfSnoc(list);
      LastKeyIsNew(list);
      VanishedNotInRun(false, cache, init, Key(last));
      ReportStep(cache, init, last, p);
      assert Run(false, cache, list) == Visit(false, p, last);
    }
  }

  lemma LastKeyIsNew(list: seq<Raspberry>)
    requires list != [] && DistinctKeys(list)
    ensures Key(list[|list| - 1]) !in KeySet(list[..|list| - 1])
  {
    var init, last := list[..|list| - 1], list[|list| - 1];
    forall x | x in init ensures Key(x) != Key(last) {
      var i :| 0 <= i < |init| && init[i] == x;
      assert list[i] == x;
    }
  }

  lemma ReportStep(cache: map<string, Raspberry>, init: seq<Raspberry>, last: Raspberry, p: Progress)
    requires forall r :: r in init ==> ReportedAsHistorySays(cache, r, p.nowAvailable, p.nowUnavailable)
    requires CacheFacts(cache, init, p.cache)
    requires Key(last) !in KeySet(init)
    requires Key(last) !in p.nowAvailable.entries && Key(last) !in p.nowUnavailable.entries
    ensures var q := Visit(false, p, last);
      forall r :: r in init + [last] ==> ReportedAsHistorySays(cache, r, q.nowAvailable, q.nowUnavailable)
  {
    var q := Visit(false, p, last);
    forall r | r in init + [last] ensures ReportedAsHistorySays(cache, r, q.nowAvailable, q.nowUnavailable) {
      if r in init {
        assert Key(r) in KeySet(init);
        assert Key(r) in q.nowAvailable.entries <==> Key(r) in p.nowAvailable.entries;
        assert Key(r) in q.nowUnavailable.entries <==> Key(r) in p.nowUnavailable.entries;
      } else {
        assert r == last;
        assert Key(last) in p.cache <==> Key(last) in cache;
      }
    }
  }

  lemma VanishedNotInRun(isFirstInit: bool, cache: map<string, Raspberry>, list: seq<Raspberry>, k: string)
    requires k !in KeySet(list)
    ensures k !in Run(isFirstInit, cache, list).nowAvailable.entries
    ensures k !in Run(isFirstInit, cache, list).nowUnavailable.entries
  {
    ChangesComeFromTable(isFirstInit, cache, list);
  }

  /** With distinct keys, each listing of the table is the last of its key. */
  lemma DistinctIsLast(list: seq<Raspberry>, i: int)
    requires DistinctKeys(list) && 0 <= i < |list|
    ensures IsLastOfKey(list, i)
  {
  }

  /** An empty change map has no keys either. */
  lemma NoEntriesNoKeys(m: ChangeMap)
    requires m.Valid() && m.entries == map[]
    ensures m == Empty()
  {
    assert |m.keys| == m.Size() == 0;
  }

  /** Feeding the same table (without repeated keys) twice in a row: the
      second update reports nothing. */
  lemma UnchangedTableIsQuiet(cache: map<string, Raspberry>, list: seq<Raspberry>)
    requires DistinctKeys(list)
    ensures Diff(Diff(cache, list).cache, list).nowAvailable == Empty()
    ensures Diff(Diff(cache, list).cache, list).nowUnavailable == Empty()
  {
    var c1 := Diff(cache, list).cache;
    CacheAfterRun(|cache| == 0, cache, list);
    if |c1| == 0 {
      FirstCycleIsBaseline(c1, list);
    } else {
      var p2 := Diff(c1, list);
      ReportsFollowAvailability(c1, list);
      ChangesComeFromTable(false, c1, list);
      forall i | 0 <= i < |list| ensures c1[Key(list[i])] == list[i] {
        DistinctIsLast(list, i);
      }
      assert p2.nowAvailable.entries == map[];
      assert p2.nowUnavailable.entries == map[];
      NoEntriesNoKeys(p2.nowAvailable);
      NoEntriesNoKeys(p2.nowUnavailable);
    }
  }

  /** A listing announced as newly available on one cycle, and still in the
      next table but unavailable, is reported newly unavailable on the next
      cycle (both tables without repeated keys). */
  lemma AvailableThenUnavailableIsReported(cache: map<string, Raspberry>, list1: seq<Raspberry>, list2: seq<Raspberry>, r: Raspberry)
    requires DistinctKeys(list1) && DistinctKeys(list2)
    requires Key(r) in Diff(cache, list1).nowAvailable.entries
    requires r in list2 && !r.available
    ensures Key(r) in Diff(Diff(cache, list1).cache, list2).nowUnavailable.entries
  {
    var p1 := Diff(cache, list1);
    var k := Key(r);
    ChangesComeFromTable(|cache| == 0, cache, list1);
    CacheAfterRun(|cache| == 0, cache, list1);
    var announced := p1.nowAvailable.entries[k];
    var i :| 0 <= i < |list1| && list1[i] == announced;
    DistinctIsLast(list1, i);
    assert p1.cache[k] == announced && announced.available;
    ReportsFollowAvailability(p1.cache, list2);
  }

  /** Every reported listing is a row of the source table that passed the
      model filter. */
  lemma ReportedRowsPassFilter(cache: map<string, Raspberry>, models: seq<string>, rows: seq<Raspberry>)
    ensures forall k :: k in Diff(cache, FilterBySku(models, rows)).nowAvailable.entries ==>
              var r := Diff(cache, FilterBySku(models, rows)).nowAvailable.entries[k];
              r in rows && (SelectsAll(models) || r.sku in models)
    ensures forall k :: k in Diff(cache, FilterBySku(models, rows)).nowUnavailable.entries ==>
              var r := Diff(cache, FilterBySku(models, rows)).nowUnavailable.entries[k];
              r in rows && (SelectsAll(models) || r.sku in models)
  {
    ChangesComeFromTable(|cache| == 0, cache, FilterBySku(models, rows));
  }
}
