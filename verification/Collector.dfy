/** The collector over all repositories: by age, or under pressure by global last use. */
module Collector {
  import opened Basics
  import opened FileSystem
  import opened StoreSpec
  import opened Store
  import opened Sorting
  import opened Storage

  /** A candidate with the store it belongs to. */
  datatype Item = Item(store: nat, candidate: Candidate)

  /** Which unlinks of one removal fail. */
  datatype RemovalFaults = RemovalFaults(body: bool, meta: bool)

  /** Removals past the end of the list work. */
  function FaultsAt(faults: seq<RemovalFaults>, n: nat): RemovalFaults {
    if n < |faults| then faults[n] else RemovalFaults(false, false)
  }

  datatype Result = Result(objects: nat, bytes: nat, skipped: nat)

  /** The stores and the budget together with what the run has counted so far. */
  datatype Sweep = Sweep(stores: seq<StoreState>, ledger: Ledger, result: Result)

  function ItemTime(i: Item): int { i.candidate.lastUsed }
  function ItemId(i: Item): (nat, Key) { (i.store, i.candidate.key) }

  /** An item that describes a complete entry of its store as it is. */
  ghost predicate Describes(stores: seq<StoreState>, i: Item) {
    && i.store < |stores| && i.candidate.key in View(stores[i.store].fs)
    && i.candidate == CandidateOf(stores[i.store].fs, i.candidate.key, View(stores[i.store].fs)[i.candidate.key])
  }

  ghost predicate AllDescribed(stores: seq<StoreState>, upTo: nat, items: seq<Item>) {
    forall i :: i in items ==> i.store < upTo && Describes(stores, i)
  }

  ghost predicate Complete(stores: seq<StoreState>, upTo: nat, items: seq<Item>)
    requires upTo <= |stores|
  {
    forall s: nat, k :: s < upTo && k in View(stores[s].fs) ==>
      exists j :: 0 <= j < |items| && ItemId(items[j]) == (s, k)
  }

  /** Every complete entry of the first upTo stores, each once. */
  ghost predicate Listed(stores: seq<StoreState>, upTo: nat, items: seq<Item>)
    requires upTo <= |stores|
  {
    AllDescribed(stores, upTo, items) && DistinctBy(items, ItemId) && Complete(stores, upTo, items)
  }

  // ---------------------------------------------------------------- listing

  function Tagged(s: nat, cs: seq<Candidate>): seq<Item> { seq(|cs|, i requires 0 <= i < |cs| => Item(s, cs[i])) }

  lemma DescribedOne(stores: seq<StoreState>, s: nat, items: seq<Item>, cs: seq<Candidate>)
    requires s < |stores| && AllDescribed(stores, s, items)
    requires forall c :: c in cs ==>
               c.key in View(stores[s].fs) && c == CandidateOf(stores[s].fs, c.key, View(stores[s].fs)[c.key])
    ensures AllDescribed(stores, s + 1, items + Tagged(s, cs))
  {
    forall i | i in Tagged(s, cs)
      ensures i.store == s && i.candidate in cs
    {
    }
  }

  lemma CompleteOne(stores: seq<StoreState>, s: nat, items: seq<Item>, cs: seq<Candidate>)
    requires s < |stores| && Complete(stores, s, items) && Lists(View(stores[s].fs), cs)
    ensures Complete(stores, s + 1, items + Tagged(s, cs))
  {
    var more := items + Tagged(s, cs);
    forall t: nat, k | t < s + 1 && k in View(stores[t].fs)
      ensures exists j :: 0 <= j < |more| && ItemId(more[j]) == (t, k)
    {
      if t == s {
        var i :| 0 <= i < |cs| && cs[i].key == k;
        assert ItemId(more[|items| + i]) == (t, k);
      } else {
        var j :| 0 <= j < |items| && ItemId(items[j]) == (t, k);
        assert ItemId(more[j]) == (t, k);
      }
    }
  }

  lemma DistinctOne(s: nat, items: seq<Item>, cs: seq<Candidate>)
    requires DistinctBy(items, ItemId) && forall i :: i in items ==> i.store < s
    requires forall i, j :: 0 <= i < j < |cs| ==> cs[i].key != cs[j].key
    ensures DistinctBy(items + Tagged(s, cs), ItemId)
  {
    var more := items + Tagged(s, cs);
    forall i, j | 0 <= i < j < |more|
      ensures ItemId(more[i]) != ItemId(more[j])
    {
      if j < |items| {
        assert more[i] == items[i] && more[j] == items[j];
      } else {
        assert more[j] == Item(s, cs[j - |items|]);
        if i >= |items| { assert more[i] == Item(s, cs[i - |items|]); } else { assert more[i] in items; }
      }
    }
  }

  lemma CompletePermutes(stores: seq<StoreState>, items: seq<Item>, r: seq<Item>)
    requires Complete(stores, |stores|, items) && forall i :: i in items ==> i in r
    ensures Complete(stores, |stores|, r)
  {
    forall s: nat, k | s < |stores| && k in View(stores[s].fs)
      ensures exists j :: 0 <= j < |r| && ItemId(r[j]) == (s, k)
    {
      var i :| 0 <= i < |items| && ItemId(items[i]) == (s, k);
      assert items[i] in r;
    }
  }

  lemma SortedListed(stores: seq<StoreState>, items: seq<Item>)
    requires Listed(stores, |stores|, items)
    ensures Listed(stores, |stores|, SortBy(items, ItemTime)) && SortedBy(SortBy(items, ItemTime), ItemTime)
  {
    var r := SortBy(items, ItemTime);
    SortSorts(items, ItemTime);
    EqualElements(items, r);
    DistinctPermute(items, r, ItemId);
    CompletePermutes(stores, items, r);
  }

  // ---------------------------------------------------------------- eviction

  /** One RemoveCandidate, and what the collector does with its answer. */
  function EvictItem(s: Sweep, item: Item, f: RemovalFaults): Sweep
    requires item.store < |s.stores|
  {
    var st, c := s.stores[item.store], item.candidate;
    var removed := WillRemove(st.fs, c, f.body);
    Sweep(s.stores[item.store := AfterRemoval(st, c, f.body, f.meta)],
          if removed then Removed(s.ledger, Wrap(c.bytes)) else s.ledger,
          Result(s.result.objects + (if removed then 1 else 0), s.result.bytes + (if removed then c.bytes else 0),
                 s.result.skipped + (if RemovalFails(st.fs, c, f.body, f.meta) then 1 else 0)))
  }

  function Evict(s: Sweep, items: seq<Item>, n: nat, faults: seq<RemovalFaults>): (r: Sweep)
    requires n <= |items| && forall i :: i in items ==> i.store < |s.stores|
    ensures |r.stores| == |s.stores|
  {
    if n == 0 then s else EvictItem(Evict(s, items, n - 1, faults), items[n - 1], FaultsAt(faults, n - 1))
  }

  /** Keys of one store among the first n items whose body could be removed. */
  function Gone(items: seq<Item>, n: nat, s: nat, faults: seq<RemovalFaults>): set<Key>
    requires n <= |items|
  {
    if n == 0 then {}
    else Gone(items, n - 1, s, faults)
         + (if items[n - 1].store == s && !FaultsAt(faults, n - 1).body then {items[n - 1].candidate.key} else {})
  }

  function Freed(items: seq<Item>, n: nat, faults: seq<RemovalFaults>): nat
    requires n <= |items|
  {
    if n == 0 then 0
    else Freed(items, n - 1, faults) + (if FaultsAt(faults, n - 1).body then 0 else items[n - 1].candidate.bytes)
  }

  /** Of the first n items, those whose body could be removed, and those with any failure. */
  function Removals(n: nat, faults: seq<RemovalFaults>): nat {
    if n == 0 then 0 else Removals(n - 1, faults) + (if FaultsAt(faults, n - 1).body then 0 else 1)
  }

  function Failures(n: nat, faults: seq<RemovalFaults>): nat {
    if n == 0 then 0
    else Failures(n - 1, faults) + (if FaultsAt(faults, n - 1).body || FaultsAt(faults, n - 1).meta then 1 else 0)
  }

  lemma {:induction false} NoFaultsCount(n: nat)
    ensures Removals(n, []) == n && Failures(n, []) == 0
  {
    if n > 0 { NoFaultsCount(n - 1); }
  }

  function ObjectSum(stores: seq<StoreState>): int {
    if stores == [] then 0 else stores[0].objects + ObjectSum(stores[1..])
  }

  lemma {:induction false} ObjectUpdate(stores: seq<StoreState>, i: nat, st: StoreState)
    requires i < |stores|
    ensures ObjectSum(stores[i := st]) == ObjectSum(stores) - stores[i].objects + st.objects
  {
    if i == 0 {
      assert stores[i := st][1..] == stores[1..];
    } else {
      assert stores[i := st][1..] == stores[1..][i - 1 := st];
      ObjectUpdate(stores[1..], i - 1, st);
    }
  }

  function CounterSum(stores: seq<StoreState>): int {
    if stores == [] then 0 else stores[0].bytes + CounterSum(stores[1..])
  }

  lemma {:induction false} CounterUpdate(stores: seq<StoreState>, i: nat, st: StoreState)
    requires i < |stores|
    ensures CounterSum(stores[i := st]) == CounterSum(stores) - stores[i].bytes + st.bytes
  {
    if i == 0 {
      assert stores[i := st][1..] == stores[1..];
    } else {
      assert stores[i := st][1..] == stores[1..][i - 1 := st];
      CounterUpdate(stores[1..], i - 1, st);
    }
  }

  lemma {:induction false} CounterAtLeast(stores: seq<StoreState>, i: nat)
    requires i < |stores| && forall j :: 0 <= j < |stores| ==> stores[j].bytes >= 0
    ensures CounterSum(stores) >= stores[i].bytes
    decreases |stores|
  {
    if |stores| > 1 {
      CounterAtLeast(stores[1..], if i == 0 then 0 else i - 1);
    }
  }

  lemma {:induction false} GoneIsVisited(items: seq<Item>, n: nat, s: nat, faults: seq<RemovalFaults>, k: Key)
    requires n <= |items| && k in Gone(items, n, s, faults)
    ensures exists j :: 0 <= j < n && ItemId(items[j]) == (s, k)
    decreases n
  {
    if items[n - 1].store == s && items[n - 1].candidate.key == k {
      assert ItemId(items[n - 1]) == (s, k);
    } else {
      GoneIsVisited(items, n - 1, s, faults, k);
    }
  }

  ghost predicate StoresSound(stores: seq<StoreState>) {
    forall i :: 0 <= i < |stores| ==> Wf(stores[i].fs) && ByteDrift(stores[i]) >= 0
  }

  /** Sound stores under a budget that covers their counters. */
  ghost predicate Covered(s: Sweep) { StoresSound(s.stores) && CounterSum(s.stores) <= s.ledger.committed as int }

  /** A store that lost exactly the keys in gone, with its counters in step. */
  ghost predicate Swept(before: StoreState, now: StoreState, gone: set<Key>) {
    && Wf(now.fs) && View(now.fs) == View(before.fs) - gone
    && ByteDrift(now) == ByteDrift(before) && ObjectDrift(now) == ObjectDrift(before)
  }

  ghost predicate AllSwept(before: seq<StoreState>, now: seq<StoreState>, items: seq<Item>, n: nat,
                           faults: seq<RemovalFaults>)
    requires n <= |items|
  {
    |now| == |before| && forall i :: 0 <= i < |now| ==> Swept(before[i], now[i], Gone(items, n, i, faults))
  }

  /** The result, the budget and the stores' counters moved by the same amount. */
  ghost predicate InStep(start: Sweep, now: Sweep, freed: nat) {
    && now.result.bytes == start.result.bytes + freed
    && now.ledger == start.ledger.(committed := now.ledger.committed)
    && now.ledger.committed as int == start.ledger.committed as int - freed
    && CounterSum(now.stores) == CounterSum(start.stores) - freed
  }

  /** The result counts the items removed and the items with a failure, and the stores' object
      counters lost the items removed. */
  ghost predicate Tallied(start: Sweep, now: Sweep, n: nat, faults: seq<RemovalFaults>) {
    && now.result.objects == start.result.objects + Removals(n, faults)
    && now.result.skipped == start.result.skipped + Failures(n, faults)
    && ObjectSum(now.stores) == ObjectSum(start.stores) - Removals(n, faults)
  }

  lemma TallyStep(start: Sweep, now: Sweep, item: Item, m: nat, n: nat, faults: seq<RemovalFaults>)
    requires n == m + 1 && item.store < |now.stores| && Tallied(start, now, m, faults)
    requires EvictsOne(now.stores[item.store], item.candidate, FaultsAt(faults, m))
    ensures Tallied(start, EvictItem(now, item, FaultsAt(faults, m)), n, faults)
  {
    var f := FaultsAt(faults, m);
    ObjectUpdate(now.stores, item.store, AfterRemoval(now.stores[item.store], item.candidate, f.body, f.meta));
  }

  lemma StillListed(fs: FS, v: map<Key, Entry>, gone: set<Key>, now: FS, c: Candidate)
    requires v == View(fs) && View(now) == v - gone && c.key in v && c.key !in gone
             && c == CandidateOf(fs, c.key, v[c.key])
    ensures Truthful(now, c) && CurrentBody(now, c.key) == Some(c.bodyPath) && c.key in View(now)
            && SizeIn(View(now), c.key) == c.bytes
  {
    ViewIsGet(fs, c.key);
    ViewIsGet(now, c.key);
  }

  /** A removal that finds its candidate unchanged. */
  lemma RemoveListed(st: StoreState, c: Candidate, f: RemovalFaults)
    requires Wf(st.fs) && Truthful(st.fs, c) && CurrentBody(st.fs, c.key) == Some(c.bodyPath)
    ensures WillRemove(st.fs, c, f.body) == !f.body
    ensures RemovalFails(st.fs, c, f.body, f.meta) <==> f.body || f.meta
    ensures AfterRemoval(st, c, f.body, f.meta).objects == st.objects - (if f.body then 0 else 1)
    ensures var st' := AfterRemoval(st, c, f.body, f.meta);
            && Wf(st'.fs) && ByteDrift(st') == ByteDrift(st) && ObjectDrift(st') == ObjectDrift(st)
            && st'.bytes == st.bytes - (if f.body then 0 else c.bytes)
            && View(st'.fs) == if f.body then View(st.fs) else View(st.fs) - {c.key}
  {
    RemoveOnlyNamedGeneration(st.fs, c, f.body, f.meta);
    RemoveKeepsCounters(st, c, f.body, f.meta);
    RemoveKeepsWf(st.fs, c, f);
  }

  lemma RemoveKeepsWf(fs: FS, c: Candidate, f: RemovalFaults)
    requires Wf(fs)
    ensures Wf(Run(fs, RemoveActs(fs, c, f.body, f.meta)))
  {
    RunWf(fs, RemoveActs(fs, c, f.body, f.meta));
  }

  /** The removal finds its candidate, and the counter moves by its size. */
  ghost predicate EvictsOne(st: StoreState, c: Candidate, f: RemovalFaults) {
    && (WillRemove(st.fs, c, f.body) <==> !f.body) && c.bytes <= st.bytes
    && AfterRemoval(st, c, f.body, f.meta).bytes == st.bytes - (if f.body then 0 else c.bytes)
    && AfterRemoval(st, c, f.body, f.meta).objects == st.objects - (if f.body then 0 else 1)
    && (RemovalFails(st.fs, c, f.body, f.meta) <==> f.body || f.meta)
  }

  /** One item on its own store. */
  lemma ItemStep(before: StoreState, now: StoreState, gone: set<Key>, c: Candidate, f: RemovalFaults)
    requires Wf(before.fs) && Swept(before, now, gone) && ByteDrift(before) >= 0
    requires c.key in View(before.fs) && c.key !in gone && c == CandidateOf(before.fs, c.key, View(before.fs)[c.key])
    ensures EvictsOne(now, c, f)
    ensures Swept(before, AfterRemoval(now, c, f.body, f.meta), gone + (if f.body then {} else {c.key}))
  {
    StillListed(before.fs, View(before.fs), gone, now.fs, c);
    RemoveListed(now, c, f);
    ViewBytesDrop(View(now.fs), c.key);
    SweptMore(before, now, AfterRemoval(now, c, f.body, f.meta), gone, c.key, !f.body);
    RemovalEvicts(now, c, f);
  }

  lemma RemovalEvicts(st: StoreState, c: Candidate, f: RemovalFaults)
    requires WillRemove(st.fs, c, f.body) <==> !f.body
    requires c.bytes <= st.bytes
             && AfterRemoval(st, c, f.body, f.meta).bytes == st.bytes - (if f.body then 0 else c.bytes)
    requires AfterRemoval(st, c, f.body, f.meta).objects == st.objects - (if f.body then 0 else 1)
    requires RemovalFails(st.fs, c, f.body, f.meta) <==> f.body || f.meta
    ensures EvictsOne(st, c, f)
  {
  }

  lemma SweptMore(before: StoreState, now: StoreState, next: StoreState, gone: set<Key>, k: Key, removed: bool)
    requires Swept(before, now, gone) && Wf(next.fs)
    requires ByteDrift(next) == ByteDrift(now) && ObjectDrift(next) == ObjectDrift(now)
    requires View(next.fs) == if removed then View(now.fs) - {k} else View(now.fs)
    ensures Swept(before, next, gone + (if removed then {k} else {}))
  {
    DropMore(View(before.fs), gone, k);
  }

  lemma DropMore(v: map<Key, Entry>, gone: set<Key>, k: Key)
    ensures v - gone - {k} == v - (gone + {k}) && gone + {} == gone
  {
  }

  lemma GoneElsewhere(items: seq<Item>, m: nat, n: nat, s: nat, faults: seq<RemovalFaults>)
    requires n == m + 1 <= |items| && items[m].store != s
    ensures Gone(items, n, s, faults) == Gone(items, m, s, faults)
  {
  }

  lemma StoresStep(before: seq<StoreState>, now: seq<StoreState>, items: seq<Item>, m: nat, n: nat,
                   faults: seq<RemovalFaults>, st: StoreState)
    requires n == m + 1 <= |items| && AllSwept(before, now, items, m, faults) && items[m].store < |now|
    requires Swept(before[items[m].store], st, Gone(items, n, items[m].store, faults))
    ensures AllSwept(before, now[items[m].store := st], items, n, faults)
  {
    var now' := now[items[m].store := st];
    forall i | 0 <= i < |now'|
      ensures Swept(before[i], now'[i], Gone(items, n, i, faults))
    {
      if i != items[m].store { GoneElsewhere(items, m, n, i, faults); }
    }
  }

  lemma MoneyStep(start: Sweep, now: Sweep, next: Sweep, item: Item, f: RemovalFaults, freed: nat, freed': nat)
    requires InStep(start, now, freed) && item.store < |now.stores|
             && CounterSum(start.stores) <= start.ledger.committed as int
    requires forall i :: 0 <= i < |now.stores| ==> now.stores[i].bytes >= 0
    requires EvictsOne(now.stores[item.store], item.candidate, f)
    requires next == EvictItem(now, item, f) && freed' == freed + if f.body then 0 else item.candidate.bytes
    ensures InStep(start, next, freed')
  {
    CounterUpdate(now.stores, item.store, AfterRemoval(now.stores[item.store], item.candidate, f.body, f.meta));
    CounterAtLeast(now.stores, item.store);
  }

  lemma SweptCounts(start: Sweep, now: seq<StoreState>, items: seq<Item>, n: nat, faults: seq<RemovalFaults>)
    requires n <= |items| && AllSwept(start.stores, now, items, n, faults) && Covered(start)
    ensures forall i :: 0 <= i < |now| ==> now[i].bytes >= 0
  {
    forall i | 0 <= i < |now|
      ensures now[i].bytes >= 0
    {
      assert Swept(start.stores[i], now[i], Gone(items, n, i, faults));
    }
  }

  lemma NotYetGone(items: seq<Item>, n: nat, faults: seq<RemovalFaults>)
    requires n < |items| && DistinctBy(items, ItemId)
    ensures items[n].candidate.key !in Gone(items, n, items[n].store, faults)
  {
    var k, s := items[n].candidate.key, items[n].store;
    if k in Gone(items, n, s, faults) {
      GoneIsVisited(items, n, s, faults, k);
    }
  }

  lemma GoneHere(items: seq<Item>, m: nat, n: nat, faults: seq<RemovalFaults>)
    requires n == m + 1 <= |items|
    ensures var s, k := items[m].store, items[m].candidate.key;
            Gone(items, n, s, faults) == Gone(items, m, s, faults) + (if FaultsAt(faults, m).body then {} else {k})
  {
  }

  lemma SweptAt(before: seq<StoreState>, now: seq<StoreState>, items: seq<Item>, n: nat,
                faults: seq<RemovalFaults>, i: nat)
    requires n <= |items| && AllSwept(before, now, items, n, faults) && i < |before|
    ensures |now| == |before| && Swept(before[i], now[i], Gone(items, n, i, faults)) == true
  {
  }

  /** One item on its store. */
  lemma EvictOneStore(start: Sweep, now: Sweep, items: seq<Item>, m: nat, n: nat, faults: seq<RemovalFaults>)
    requires Covered(start) && n == m + 1 <= |items| && Describes(start.stores, items[m])
    requires items[m].candidate.key !in Gone(items, m, items[m].store, faults)
    requires AllSwept(start.stores, now.stores, items, m, faults) == true
    ensures |now.stores| == |start.stores|
    ensures var i, c, f := items[m].store, items[m].candidate, FaultsAt(faults, m);
            && EvictsOne(now.stores[i], c, f) == true
            && Swept(start.stores[i], AfterRemoval(now.stores[i], c, f.body, f.meta), Gone(items, n, i, faults)) == true
  {
    var i, c, f := items[m].store, items[m].candidate, FaultsAt(faults, m);
    SweptAt(start.stores, now.stores, items, m, faults, i);
    GoneHere(items, m, n, faults);
    ItemStep(start.stores[i], now.stores[i], Gone(items, m, i, faults), c, f);
  }

  /** One item on all stores. */
  lemma EvictOneSweeps(start: Sweep, now: Sweep, items: seq<Item>, m: nat, n: nat, faults: seq<RemovalFaults>)
    requires Covered(start) == true && n == m + 1 <= |items| && Describes(start.stores, items[m]) == true
    requires items[m].candidate.key !in Gone(items, m, items[m].store, faults)
    requires AllSwept(start.stores, now.stores, items, m, faults) == true
    ensures |now.stores| == |start.stores|
    ensures AllSwept(start.stores, EvictItem(now, items[m], FaultsAt(faults, m)).stores, items, n, faults) == true
    ensures EvictsOne(now.stores[items[m].store], items[m].candidate, FaultsAt(faults, m)) == true
  {
    var i, c, f := items[m].store, items[m].candidate, FaultsAt(faults, m);
    EvictOneStore(start, now, items, m, n, faults);
    StoresStep(start.stores, now.stores, items, m, n, faults, AfterRemoval(now.stores[i], c, f.body, f.meta));
  }

  lemma EvictOneTallies(start: Sweep, now: Sweep, items: seq<Item>, m: nat, n: nat, faults: seq<RemovalFaults>)
    requires Covered(start) == true && n == m + 1 <= |items| && Describes(start.stores, items[m]) == true
    requires items[m].candidate.key !in Gone(items, m, items[m].store, faults)
    requires AllSwept(start.stores, now.stores, items, m, faults) == true && |now.stores| == |start.stores|
    requires items[m].store < |now.stores| && Tallied(start, now, m, faults) == true
    ensures Tallied(start, EvictItem(now, items[m], FaultsAt(faults, m)), n, faults) == true
  {
    EvictOneSweeps(start, now, items, m, n, faults);
    TallyStep(start, now, items[m], m, n, faults);
  }

  lemma EvictOne(start: Sweep, now: Sweep, next: Sweep, items: seq<Item>, m: nat, n: nat, faults: seq<RemovalFaults>)
    requires Covered(start) && n == m + 1 <= |items| && Describes(start.stores, items[m])
    requires items[m].candidate.key !in Gone(items, m, items[m].store, faults)
    requires AllSwept(start.stores, now.stores, items, m, faults)
    requires InStep(start, now, Freed(items, m, faults))
    requires |now.stores| == |start.stores| && next == EvictItem(now, items[m], FaultsAt(faults, m))
    ensures AllSwept(start.stores, next.stores, items, n, faults)
    ensures InStep(start, next, Freed(items, n, faults))
  {
    EvictOneSweeps(start, now, items, m, n, faults);
    SweptCounts(start, now.stores, items, m, faults);
    MoneyStep(start, now, next, items[m], FaultsAt(faults, m), Freed(items, m, faults), Freed(items, n, faults));
  }

  /** Eviction conserves bytes, whatever fails: what the result counts is what the stores' counters
      and the budget lost, and each store lost exactly the keys whose bodies could be removed. */
  lemma {:induction false} EvictionConserves(start: Sweep, items: seq<Item>, n: nat, faults: seq<RemovalFaults>)
    requires Covered(start) && AllDescribed(start.stores, |start.stores|, items) && n <= |items|
    requires DistinctBy(items, ItemId)
    ensures AllSwept(start.stores, Evict(start, items, n, faults).stores, items, n, faults)
    ensures InStep(start, Evict(start, items, n, faults), Freed(items, n, faults))
    ensures Tallied(start, Evict(start, items, n, faults), n, faults)
    decreases n
  {
    if n == 0 {
      EvictNothing(start, items, faults);
    } else {
      var m: nat := n - 1;
      EvictionConserves(start, items, m, faults);
      NotYetGone(items, m, faults);
      assert items[m] in items;
      EvictUnfolds(start, items, m, n, faults);
      EvictOneTallies(start, Evict(start, items, m, faults), items, m, n, faults);
      EvictOne(start, Evict(start, items, m, faults), Evict(start, items, n, faults), items, m, n, faults);
    }
  }

  lemma EvictUnfolds(s: Sweep, items: seq<Item>, m: nat, n: nat, faults: seq<RemovalFaults>)
    requires n == m + 1 <= |items| && forall i :: i in items ==> i.store < |s.stores|
    ensures Evict(s, items, n, faults) == EvictItem(Evict(s, items, m, faults), items[m], FaultsAt(faults, m))
  {
  }

  lemma SweptNothing(st: StoreState)
    requires Wf(st.fs)
    ensures Swept(st, st, {})
  {
    assert View(st.fs) - {} == View(st.fs);
  }

  lemma EvictNothing(start: Sweep, items: seq<Item>, faults: seq<RemovalFaults>)
    requires Covered(start)
    ensures AllSwept(start.stores, start.stores, items, 0, faults) && InStep(start, start, 0)
  {
    forall i | 0 <= i < |start.stores|
      ensures Swept(start.stores[i], start.stores[i], {})
    {
      SweptNothing(start.stores[i]);
    }
  }

  // ---------------------------------------------------------------- pressure

  lemma {:induction false} GoneHasVisited(items: seq<Item>, n: nat, j: nat)
    requires j < n <= |items|
    ensures items[j].candidate.key in Gone(items, n, items[j].store, [])
    decreases n
  {
    if j < n - 1 { GoneHasVisited(items, n - 1, j); }
  }

  ghost predicate NotBefore(start: Sweep, items: seq<Item>, n: nat, faults: seq<RemovalFaults>, toRemove: int)
    requires n <= |items| && forall i :: i in items ==> i.store < |start.stores|
  {
    forall j: nat :: j < n ==> Evict(start, items, j, faults).result.bytes < toRemove
  }

  lemma NotBeforeNext(start: Sweep, items: seq<Item>, m: nat, n: nat, faults: seq<RemovalFaults>, toRemove: int)
    requires n == m + 1 <= |items| && forall i :: i in items ==> i.store < |start.stores|
    requires NotBefore(start, items, m, faults, toRemove) && Evict(start, items, m, faults).result.bytes < toRemove
    ensures NotBefore(start, items, n, faults, toRemove)
  {
    forall j: nat | j < n
      ensures Evict(start, items, j, faults).result.bytes < toRemove
    {
      if j == m { assert Evict(start, items, j, faults) == Evict(start, items, m, faults); }
    }
  }

  /** The collector stops at the first prefix that frees enough, or at the end. */
  ghost predicate StopsAt(start: Sweep, items: seq<Item>, n: nat, faults: seq<RemovalFaults>, toRemove: int)
    requires forall i :: i in items ==> i.store < |start.stores|
  {
    && n <= |items|
    && NotBefore(start, items, n, faults, toRemove)
    && (n == |items| || Evict(start, items, n, faults).result.bytes >= toRemove)
  }

  lemma FreedIsCounted(start: Sweep, items: seq<Item>, n: nat, faults: seq<RemovalFaults>)
    requires Covered(start) && Listed(start.stores, |start.stores|, items) && n <= |items|
    ensures Evict(start, items, n, faults).result.bytes == start.result.bytes + Freed(items, n, faults)
    ensures Evict(start, items, n, faults).ledger.committed as int
            == start.ledger.committed as int - Freed(items, n, faults)
    ensures Evict(start, items, n, faults).result.objects == start.result.objects + Removals(n, faults)
    ensures Evict(start, items, n, faults).result.skipped == start.result.skipped + Failures(n, faults)
  {
    EvictionConserves(start, items, n, faults);
  }

  lemma SurvivorsAreLater(start: Sweep, items: seq<Item>, n: nat, s: nat, k: Key)
    requires Covered(start) && Listed(start.stores, |start.stores|, items) && n <= |items|
    requires s < |start.stores| && k in View(Evict(start, items, n, []).stores[s].fs)
    ensures exists l :: n <= l < |items| && ItemId(items[l]) == (s, k)
  {
    EvictionConserves(start, items, n, []);
    assert Swept(start.stores[s], Evict(start, items, n, []).stores[s], Gone(items, n, s, []));
    var l :| 0 <= l < |items| && ItemId(items[l]) == (s, k);
    if l < n { GoneHasVisited(items, n, l); }
  }

  /** A removed prefix of the global least-recently-used order, the shortest that frees the excess
      over the low watermark: what survives was used no earlier than anything removed; the result
      counts exactly what the budget lost; and the budget ends at or below the low watermark, or
      nothing is left to remove. */
  ghost predicate EvictedLru(start: Sweep, end: Sweep, items: seq<Item>, n: nat, low: int)
    requires n <= |items|
  {
    && (forall j: nat :: j < n ==> Freed(items, j, []) < start.ledger.committed as int - low)
    && (n == |items| || Freed(items, n, []) >= start.ledger.committed as int - low)
    && (forall s: nat, k :: s < |end.stores| && k in View(end.stores[s].fs) ==> UsedLater(items, n, s, k))
    && end.result.bytes == start.ledger.committed as int - end.ledger.committed as int
    && end.result.objects == n && end.result.skipped == 0
    && Relieved(end.stores, end.ledger.committed as int, low)
  }

  /** The key is listed behind the first n items, all of which were last used no later. */
  ghost predicate UsedLater(items: seq<Item>, n: nat, s: nat, k: Key)
    requires n <= |items|
  {
    exists l :: n <= l < |items| && ItemId(items[l]) == (s, k)
                && forall j :: 0 <= j < n ==> ItemTime(items[j]) <= ItemTime(items[l])
  }

  /** Pressure eviction without faults is least-recently-used first, and no further than needed. */
  lemma PressureIsExact(start: Sweep, items: seq<Item>, n: nat, low: int)
    requires Covered(start) && Listed(start.stores, |start.stores|, items) && SortedBy(items, ItemTime)
    requires start.result == Result(0, 0, 0) && StopsAt(start, items, n, [], start.ledger.committed as int - low)
    ensures EvictedLru(start, Evict(start, items, n, []), items, n, low)
  {
    forall j: nat | j <= n
      ensures Evict(start, items, j, []).result.bytes == Freed(items, j, [])
    {
      FreedIsCounted(start, items, j, []);
    }
    FreedIsCounted(start, items, n, []);
    NoFaultsCount(n);
    forall s: nat, k | s < |start.stores| && k in View(Evict(start, items, n, []).stores[s].fs)
      ensures UsedLater(items, n, s, k)
    {
      SurvivorsAreLater(start, items, n, s, k);
    }
    if n == |items| {
      forall s: nat | s < |start.stores|
        ensures View(Evict(start, items, n, []).stores[s].fs) == map[]
      {
        NothingSurvives(start, items, s);
      }
    }
  }

  lemma NothingSurvives(start: Sweep, items: seq<Item>, s: nat)
    requires Covered(start) && Listed(start.stores, |start.stores|, items) && s < |start.stores|
    ensures View(Evict(start, items, |items|, []).stores[s].fs) == map[]
  {
    var v := View(Evict(start, items, |items|, []).stores[s].fs);
    forall k ensures k !in v {
      if k in v { SurvivorsAreLater(start, items, |items|, s, k); }
    }
  }

  // ---------------------------------------------------------------- the running collector

  /** Listing fails for some store. */
  predicate ListingFails(stores: seq<StoreState>, upTo: nat, walkFails: seq<set<Key>>)
    requires upTo <= |stores| <= |walkFails|
  {
    exists s :: 0 <= s < upTo && walkFails[s] * MetaKeys(stores[s].fs) != {}
  }

  lemma SweptIsSound(before: seq<StoreState>, now: seq<StoreState>, items: seq<Item>, n: nat,
                     faults: seq<RemovalFaults>)
    requires n <= |items| && StoresSound(before) && AllSwept(before, now, items, n, faults)
    ensures StoresSound(now)
  {
    forall i | 0 <= i < |now|
      ensures Wf(now[i].fs) && ByteDrift(now[i]) >= 0
    {
      assert Swept(before[i], now[i], Gone(items, n, i, faults));
    }
  }

  lemma InStepIsCovered(start: Sweep, now: Sweep, freed: nat)
    requires InStep(start, now, freed) && Covered(start) && StoresSound(now.stores)
    ensures Covered(now)
    ensures now.result.bytes - start.result.bytes == start.ledger.committed as int - now.ledger.committed as int
    ensures now.result.bytes - start.result.bytes == CounterSum(start.stores) - CounterSum(now.stores)
  {
  }

  /** What a run of evictions conserves. */
  lemma EvictionKeepsCover(start: Sweep, items: seq<Item>, n: nat, faults: seq<RemovalFaults>)
    requires Covered(start) && Listed(start.stores, |start.stores|, items) && n <= |items|
    ensures var end := Evict(start, items, n, faults);
            && Covered(end)
            && end.result.bytes - start.result.bytes == start.ledger.committed as int - end.ledger.committed as int
            && end.result.bytes - start.result.bytes == CounterSum(start.stores) - CounterSum(end.stores)
            && end.result.objects - start.result.objects == ObjectSum(start.stores) - ObjectSum(end.stores)
            && end.result.objects - start.result.objects == Removals(n, faults)
            && end.result.skipped - start.result.skipped == Failures(n, faults)
  {
    var end := Evict(start, items, n, faults);
    EvictionConserves(start, items, n, faults);
    SweptIsSound(start.stores, end.stores, items, n, faults);
    InStepIsCovered(start, end, Freed(items, n, faults));
  }

  /** The budget is at or below the low watermark, or nothing is left to remove. */
  ghost predicate Relieved(stores: seq<StoreState>, committed: int, low: int) {
    committed <= low || forall s: nat :: s < |stores| ==> View(stores[s].fs) == map[]
  }

  /** What the age walks over the first n stores count, taken together. */
  function AgeTotal(before: seq<StoreState>, walks: seq<Walk>, cutoff: int, n: nat): Result
    requires n <= |before| == |walks|
  {
    if n == 0 then Result(0, 0, 0)
    else Add(AgeTotal(before, walks, cutoff, n - 1), Aged(before[n - 1], walks[n - 1], cutoff).result)
  }

  function Add(sum: Result, one: GcResult): (r: Result)
    ensures r.objects == sum.objects + one.objects && r.bytes == sum.bytes + one.bytes
    ensures r.skipped == sum.skipped + one.skipped
  {
    Result(sum.objects + one.objects, sum.bytes + one.bytes, sum.skipped + one.skipped)
  }

  /** The result adds up the walks that ended well: all of them, or those before the first that
      fails or finds the context cancelled. */
  ghost predicate AgeResult(before: seq<StoreState>, walks: seq<Walk>, cutoff: int, cancelled: set<nat>, result: Result,
                            failed: bool) {
    exists n: nat :: AgeSoFar(before, walks, cutoff, cancelled, n, result)
                     && if failed then n < |walks| && (n in cancelled || walks[n].fails) else n == |walks|
  }

  ghost predicate AgeSoFar(before: seq<StoreState>, walks: seq<Walk>, cutoff: int, cancelled: set<nat>, n: nat,
                           result: Result) {
    && n <= |before| == |walks| && result == AgeTotal(before, walks, cutoff, n)
    && forall i :: 0 <= i < n ==> !walks[i].fails && i !in cancelled
  }

  lemma AgeFails(before: seq<StoreState>, walks: seq<Walk>, cutoff: int, cancelled: set<nat>, result: Result)
    requires AgeResult(before, walks, cutoff, cancelled, result, true)
    ensures cancelled != {} || exists i :: 0 <= i < |walks| && walks[i].fails
  {
  }

  lemma AgeStarts(before: seq<StoreState>, walks: seq<Walk>, cutoff: int, cancelled: set<nat>)
    requires |before| == |walks|
    ensures AgeSoFar(before, walks, cutoff, cancelled, 0, Result(0, 0, 0)) == true
  {
  }

  lemma AgeEnds(before: seq<StoreState>, walks: seq<Walk>, cutoff: int, cancelled: set<nat>, n: nat, result: Result,
                failed: bool)
    requires AgeSoFar(before, walks, cutoff, cancelled, n, result) == true
    requires if failed then n < |walks| && (n in cancelled || walks[n].fails) else n == |walks|
    ensures AgeResult(before, walks, cutoff, cancelled, result, failed) == true
  {
  }

  /** And each walk's counts are what its store lost: objects and bytes from its counters, and one
      skip for each metadata file that could not be judged or removed. */
  lemma AgedIsCounted(st: StoreState, w: Walk, cutoff: int)
    requires Wf(st.fs) && WalkOf(st.fs, w.order)
    ensures var r := Aged(st, w, cutoff);
            && r.result.bytes == st.bytes - r.st.bytes && r.result.objects == st.objects - r.st.objects
            && r.result.skipped == |SkippedKeys(st.fs, Visited(w.order), cutoff, w.bodyFails, w.metaFails)|
  {
    var r, todo := Aged(st, w, cutoff), MetaKeys(st.fs) - Visited(w.order);
    AgeCollectionIsExact(st, w.order, cutoff, w.bodyFails, w.metaFails);
    ProgressCounts(st, r.st, todo, Visited(w.order), cutoff, w.bodyFails, w.metaFails, r.result);
  }

  lemma ProgressCounts(before: StoreState, now: StoreState, todo: set<Key>, visited: set<Key>, cutoff: int,
                       bodyFails: set<Key>, metaFails: set<Key>, result: GcResult)
    requires GcProgress(before, now, todo, cutoff, bodyFails, metaFails, result)
    requires visited <= MetaKeys(before.fs) && todo == MetaKeys(before.fs) - visited
    ensures result.bytes == before.bytes - now.bytes && result.objects == before.objects - now.objects
    ensures result.skipped == |SkippedKeys(before.fs, visited, cutoff, bodyFails, metaFails)|
  {
    assert MetaKeys(before.fs) - todo == visited;
  }

  lemma AgeSoFarNext(before: seq<StoreState>, walks: seq<Walk>, cutoff: int, cancelled: set<nat>, i: nat, next: nat,
                     sum: Result, one: GcResult)
    requires i < |before| == |walks| && next == i + 1 && AgeSoFar(before, walks, cutoff, cancelled, i, sum) == true
    requires one == Aged(before[i], walks[i], cutoff).result && !walks[i].fails && i !in cancelled
    ensures AgeSoFar(before, walks, cutoff, cancelled, next, Add(sum, one)) == true
  {
  }

  /** The first upTo stores are aged, the others as they were. */
  ghost predicate AgedUpTo(before: seq<StoreState>, now: seq<StoreState>, walks: seq<Walk>, cutoff: int, upTo: nat) {
    && |before| == |now| == |walks| && upTo <= |now|
    && forall i :: 0 <= i < |now| ==> now[i] == if i < upTo then Aged(before[i], walks[i], cutoff).st else before[i]
  }

  ghost predicate AllAged(before: seq<StoreState>, now: seq<StoreState>, walks: seq<Walk>, cutoff: int) {
    |before| == |now| == |walks| && forall i :: 0 <= i < |now| ==> now[i] == Aged(before[i], walks[i], cutoff).st
  }

  lemma NothingAges(stores: seq<StoreState>, walks: seq<Walk>, cutoff: int)
    requires stores == [] && Walks(stores, walks)
    ensures AllAged(stores, stores, walks, cutoff) == true
  {
  }

  lemma AgedToTheEnd(before: seq<StoreState>, now: seq<StoreState>, walks: seq<Walk>, cutoff: int, n: nat)
    requires AgedUpTo(before, now, walks, cutoff, n) && n >= |now|
    ensures AllAged(before, now, walks, cutoff) == true
  {
  }

  ghost predicate Walks(stores: seq<StoreState>, walks: seq<Walk>) {
    |walks| == |stores| && forall i :: 0 <= i < |stores| ==> WalkOf(stores[i].fs, walks[i].order)
  }

  lemma AgedNext(before: seq<StoreState>, now: seq<StoreState>, walks: seq<Walk>, cutoff: int, i: nat, next: nat)
    requires AgedUpTo(before, now, walks, cutoff, i) && Walks(before, walks) && i < |now| && next == i + 1
    ensures |walks| == |now| && WalkOf(now[i].fs, walks[i].order) && now[i] == before[i]
    ensures AgedUpTo(before, now[i := Aged(now[i], walks[i], cutoff).st], walks, cutoff, next)
  {
  }

  class Server {
    var stores: seq<StoreState>
    const controller: Controller?
    const maxAge: int

    constructor (stores: seq<StoreState>, controller: Controller?, maxAge: int)
      ensures this.stores == stores && this.controller == controller && this.maxAge == maxAge
    {
      this.stores, this.controller, this.maxAge := stores, controller, maxAge;
    }

    ghost function Start(): Sweep
      requires controller != null
      reads this, controller
    {
      Sweep(stores, controller.State(), Result(0, 0, 0))
    }

    ghost predicate Sound()
      reads this, if controller == null then {} else {controller} + controller.open.Keys
    {
      && StoresSound(stores)
      && (controller != null ==> controller.Valid() && CounterSum(stores) <= controller.committed as int)
    }

    /** All stores' candidates in one order of last use, unless a listing fails. */
    method ListAll(walkFails: seq<set<Key>>) returns (items: seq<Item>, failed: bool)
      requires |walkFails| == |stores|
      ensures failed <==> ListingFails(stores, |stores|, walkFails)
      ensures !failed ==> Listed(stores, |stores|, items) && SortedBy(items, ItemTime)
    {
      var found: seq<Item> := [];
      var s := 0;
      assert Listed(stores, 0, found);
      while s < |stores|
        invariant s <= |stores| && Listed(stores, s, found) && !ListingFails(stores, s, walkFails)
      {
        var candidates, listingFailed := ListCandidates(stores[s].fs, walkFails[s]);
        if listingFailed {
          return [], true;
        }
        ListedOne(stores, s, found, candidates);
        found := found + Tagged(s, candidates);
        s := s + 1;
      }
      items, failed := SortBy(found, ItemTime), false;
      SortedListed(stores, found);
    }

    /** The low watermark in bytes. */
    ghost function Low(): (low: int)
      requires controller != null
      ensures controller.maxBytes >= 0 && controller.lowBasisPoints >= 0 ==>
                low == controller.maxBytes as int * controller.lowBasisPoints as int / 10_000
    {
      Quotient(controller.maxBytes as int * controller.lowBasisPoints as int, 10_000)
    }

    /** Evicts in order of last use until the excess over the low watermark is freed; a removal
        that fails is counted and skipped, a failed listing or a cancelled context ends the run. */
    method CollectPressure(walkFails: seq<set<Key>>, faults: seq<RemovalFaults>, cancelled: set<nat>)
      returns (result: Result, failed: bool, ghost items: seq<Item>, ghost n: nat)
      requires Sound() && controller != null && |walkFails| == |stores|
      modifies this, controller
      ensures Sound() && controller.open == old(controller.open)
      ensures result.bytes == old(controller.committed) as int - controller.committed as int
      ensures result.bytes == CounterSum(old(stores)) - CounterSum(stores)
      ensures result.objects == ObjectSum(old(stores)) - ObjectSum(stores)
      ensures result.objects == Removals(n, faults) && result.skipped == Failures(n, faults)
      ensures old(controller.committed) as int <= Low() || ListingFails(old(stores), |old(stores)|, walkFails) ==>
                Sweep(stores, controller.State(), result) == old(Start())
      ensures old(controller.committed) as int > Low() && ListingFails(old(stores), |old(stores)|, walkFails) ==> failed
      ensures old(controller.committed) as int <= Low() ==> !failed
      ensures !failed && faults == [] ==> Relieved(stores, controller.committed as int, Low())
      ensures old(controller.committed) as int > Low() && !ListingFails(old(stores), |old(stores)|, walkFails) ==>
                && Listed(old(stores), |old(stores)|, items) && SortedBy(items, ItemTime) && n <= |items|
                && Sweep(stores, controller.State(), result) == Evict(old(Start()), items, n, faults)
                && (failed ==> n in cancelled)
                && (!failed ==> StopsAt(old(Start()), items, n, faults, old(controller.committed) as int - Low()))
                && (!failed && faults == [] ==>
                      EvictedLru(old(Start()), Sweep(stores, controller.State(), result), items, n, Low()))
    {
      ghost var start := Start();
      result, failed, n, items := Result(0, 0, 0), false, 0, [];
      var state := controller.Snapshot();
      var toRemove := state.committed as int - state.lowBytes as int;
      if toRemove <= 0 {
        return;
      }
      var all, listingFailed := ListAll(walkFails);
      if listingFailed {
        failed := true;
        return;
      }
      items := all;
      result, failed, n := EvictUntil(toRemove, all, faults, cancelled);
      EvictionKeepsCover(start, all, n, faults);
      if !failed && faults == [] {
        PressureIsExact(start, all, n, Low());
      }
    }

    method EvictUntil(toRemove: int, all: seq<Item>, faults: seq<RemovalFaults>, cancelled: set<nat>)
      returns (result: Result, failed: bool, ghost n: nat)
      requires controller != null && controller.Valid() && forall i :: i in all ==> i.store < |stores|
      modifies this, controller
      ensures controller.Valid() && controller.open == old(controller.open)
      ensures n <= |all| && Sweep(stores, controller.State(), result) == Evict(old(Start()), all, n, faults)
      ensures failed ==> n in cancelled
      ensures !failed ==> StopsAt(old(Start()), all, n, faults, toRemove)
    {
      ghost var start := Start();
      result, failed, n := Result(0, 0, 0), false, 0;
      var i := 0;
      while i < |all|
        invariant i == n <= |all| && |stores| == |start.stores|
        invariant controller.Valid() && controller.open == old(controller.open)
        invariant Sweep(stores, controller.State(), result) == Evict(start, all, n, faults)
        invariant NotBefore(start, all, n, faults, toRemove)
      {
        if i in cancelled { failed := true; return; }
        if result.bytes >= toRemove { return; }
        ghost var next: nat := i + 1;
        EvictUnfolds(start, all, i, next, faults);
        NotBeforeNext(start, all, i, next, faults, toRemove);
        result := RemoveItem(all[i], FaultsAt(faults, i), result);
        i := i + 1;
        n := next;
      }
    }

    method RemoveItem(item: Item, f: RemovalFaults, counted: Result) returns (result: Result)
      requires controller != null && controller.Valid() && item.store < |stores|
      modifies this, controller
      ensures controller.Valid() && controller.open == old(controller.open)
      ensures Sweep(stores, controller.State(), result)
           == EvictItem(Sweep(old(stores), old(controller.State()), counted), item, f)
    {
      var st, c := stores[item.store], item.candidate;
      var removed := WillRemove(st.fs, c, f.body);
      stores := stores[item.store := AfterRemoval(st, c, f.body, f.meta)];
      result := counted;
      if removed {
        result := result.(objects := result.objects + 1, bytes := result.bytes + c.bytes);
        controller.Remove(Wrap(c.bytes));
      }
      if RemovalFails(st.fs, c, f.body, f.meta) {
        result := result.(skipped := result.skipped + 1);
      }
    }

    /** How far the budget stands above the stores' counters; without a budget, not at all. */
    ghost function Surplus(): int
      reads this, controller
    {
      if controller == null then 0 else controller.committed as int - CounterSum(stores)
    }

    /** One repository's walk; its bytes reach the budget only if the walk succeeds. */
    method AgeStore(i: nat, w: Walk, cutoff: int) returns (r: GcResult)
      requires Sound() && i < |stores| && WalkOf(stores[i].fs, w.order)
      modifies this, controller
      ensures Sound() && stores == old(stores)[i := Aged(old(stores)[i], w, cutoff).st]
      ensures r == Aged(old(stores)[i], w, cutoff).result && r.bytes == CounterSum(old(stores)) - CounterSum(stores)
      ensures controller != null ==> controller.open == old(controller.open)
      ensures Surplus() == old(Surplus()) + (if controller != null && w.fails then r.bytes else 0)
    {
      ghost var before := stores;
      var run := Aged(stores[i], w, cutoff);
      AgedCounts(stores, i, w, cutoff);
      stores := stores[i := run.st];
      r := run.result;
      if controller != null && !w.fails {
        controller.Remove(Wrap(r.bytes));
      }
      AgedIsSound(before, i, w, cutoff);
    }

    /** One repository's turn, counted if its walk succeeds. */
    method AgeNext(i: nat, ghost next: nat, walks: seq<Walk>, cutoff: int, counted: Result,
                   ghost start: seq<StoreState>, ghost cancelled: set<nat>)
      returns (result: Result, failed: bool, ghost forgone: nat)
      requires Sound() == true && i < |stores| == |walks| && next == i + 1
      requires Walks(start, walks) == true && AgedUpTo(start, stores, walks, cutoff, i) == true
      requires counted.bytes == CounterSum(start) - CounterSum(stores) && i !in cancelled && |start| == |walks|
      requires AgeSoFar(start, walks, cutoff, cancelled, i, counted) == true
      modifies this, controller
      ensures Sound() == true && |stores| == |walks| && AgedUpTo(start, stores, walks, cutoff, next) == true
      ensures controller != null ==> controller.open == old(controller.open)
      ensures result.bytes == CounterSum(start) - CounterSum(stores) - forgone
      ensures Surplus() == old(Surplus()) + (if controller == null then 0 else forgone)
      ensures failed == walks[i].fails && (!failed ==> forgone == 0)
      ensures failed ==> AgeResult(start, walks, cutoff, cancelled, result, true) == true
      ensures !failed ==> AgeSoFar(start, walks, cutoff, cancelled, next, result) == true
    {
      AgedNext(start, stores, walks, cutoff, i, next);
      var one := AgeStore(i, walks[i], cutoff);
      failed := walks[i].fails;
      if failed {
        AgeEnds(start, walks, cutoff, cancelled, i, counted, true);
        result, forgone := counted, one.bytes;
      } else {
        AgeSoFarNext(start, walks, cutoff, cancelled, i, next, counted, one);
        result, forgone := Add(counted, one), 0;
      }
    }

    /** All repositories in turn. A walk that fails ends the run before its store's bytes reach the
        budget, which then stays above the stores by those bytes. */
    method AgeAll(cutoff: int, walks: seq<Walk>, cancelled: set<nat>)
      returns (result: Result, failed: bool, ghost forgone: nat)
      requires Sound() == true && Walks(stores, walks) == true
      modifies this, controller
      ensures Sound() == true && (controller != null ==> controller.open == old(controller.open))
      ensures result.bytes == CounterSum(old(stores)) - CounterSum(stores) - forgone
      ensures Surplus() == old(Surplus()) + (if controller == null then 0 else forgone)
      ensures !failed ==> forgone == 0 && AllAged(old(stores), stores, walks, cutoff) == true
      ensures AgeResult(old(stores), walks, cutoff, cancelled, result, failed) == true
    {
      result, failed, forgone := Result(0, 0, 0), false, 0;
      ghost var start := stores;
      AgeStarts(start, walks, cutoff, cancelled);
      var i := 0;
      while i < |stores|
        invariant i <= |stores| == |walks| && AgedUpTo(start, stores, walks, cutoff, i) == true
        invariant Sound() == true && Surplus() == old(Surplus())
        invariant controller != null ==> controller.open == old(controller.open)
        invariant forgone == 0 && result.bytes == CounterSum(start) - CounterSum(stores)
        invariant AgeSoFar(start, walks, cutoff, cancelled, i, result) == true
      {
        if i in cancelled {
          AgeEnds(start, walks, cutoff, cancelled, i, result, true);
          failed := true;
          return;
        }
        ghost var next: nat := i + 1;
        result, failed, forgone := AgeNext(i, next, walks, cutoff, result, start, cancelled);
        if failed {
          return;
        }
        i := i + 1;
      }
      AgeEnds(start, walks, cutoff, cancelled, i, result, false);
      AgedToTheEnd(start, stores, walks, cutoff, i);
    }

    /** Entries stored up to this time are old enough to go. */
    function Cutoff(now: int): (c: int)
      ensures c == now - maxAge
    {
      now - maxAge
    }

    /** Age collection; an age that is not positive fails at the first repository. */
    method CollectByAge(now: int, walks: seq<Walk>, cancelled: set<nat>)
      returns (result: Result, failed: bool, ghost forgone: nat)
      requires Sound() == true && Walks(stores, walks) == true
      modifies this, controller
      ensures Sound() == true && (controller != null ==> controller.open == old(controller.open))
      ensures result.bytes == CounterSum(old(stores)) - CounterSum(stores) - forgone
      ensures Surplus() == old(Surplus()) + (if controller == null then 0 else forgone)
      ensures !failed ==> forgone == 0 && AllAged(old(stores), stores, walks, Cutoff(now)) == true
      ensures failed ==> cancelled != {} || maxAge <= 0 || exists i :: 0 <= i < |walks| && walks[i].fails
      ensures maxAge <= 0 ==> stores == old(stores) && result == Result(0, 0, 0) && (failed <==> stores != [])
      ensures maxAge > 0 ==> AgeResult(old(stores), walks, Cutoff(now), cancelled, result, failed) == true
    {
      ghost var before := stores;
      if maxAge > 0 {
        result, failed, forgone := AgeAll(Cutoff(now), walks, cancelled);
        if failed { AgeFails(before, walks, Cutoff(now), cancelled, result); }
      } else {
        result, failed, forgone := Result(0, 0, 0), stores != [], 0;
        if stores == [] { NothingAges(stores, walks, Cutoff(now)); }
      }
    }

    /** One run of the collector: under pressure by last use, otherwise by age. Whichever it is and
        whatever fails, the stores stay sound and covered, the reservations are not touched, and the
        result counts what the counters lost, and the budget with them, but for a failed walk. */
    method Collect(now: int, walks: seq<Walk>, walkFails: seq<set<Key>>, faults: seq<RemovalFaults>,
                   cancelled: set<nat>)
      returns (result: Result, failed: bool, ghost forgone: nat, ghost items: seq<Item>, ghost n: nat)
      requires Sound() && |walkFails| == |stores|
      requires Walks(stores, walks)
      modifies this, controller
      ensures Sound() && (controller != null ==> controller.open == old(controller.open))
      ensures result.bytes == CounterSum(old(stores)) - CounterSum(stores) - forgone
      ensures controller != null ==> result.bytes == old(controller.committed) as int - controller.committed as int
      ensures controller != null && old(controller.UnderPressure()) ==> forgone == 0
      ensures controller != null && old(controller.UnderPressure()) && !failed && faults == [] ==>
                Relieved(stores, controller.committed as int, Low())
      ensures (controller == null || !old(controller.UnderPressure())) && !failed ==>
                forgone == 0 && AllAged(old(stores), stores, walks, Cutoff(now))
      ensures (controller == null || !old(controller.UnderPressure())) && maxAge > 0 ==>
                AgeResult(old(stores), walks, Cutoff(now), cancelled, result, failed) == true
      ensures (controller == null || !old(controller.UnderPressure())) && maxAge <= 0 ==>
                stores == old(stores) && result == Result(0, 0, 0) && (failed <==> stores != [])
      ensures controller != null && old(controller.UnderPressure()) ==>
                && result.objects == ObjectSum(old(stores)) - ObjectSum(stores)
                && result.objects == Removals(n, faults) && result.skipped == Failures(n, faults)
                && if old(controller.committed) as int <= Low() then !failed && stores == old(stores)
                   else if ListingFails(old(stores), |old(stores)|, walkFails) then failed && stores == old(stores)
                   else
                     && Listed(old(stores), |old(stores)|, items) && SortedBy(items, ItemTime) && n <= |items|
                     && Sweep(stores, controller.State(), result) == Evict(old(Start()), items, n, faults)
                     && if failed then n in cancelled
                        else StopsAt(old(Start()), items, n, faults, old(controller.committed) as int - Low())
    {
      if controller != null {
        var usage := controller.Snapshot();
        if usage.pressure {
          result, failed, items, n := CollectPressure(walkFails, faults, cancelled);
          forgone := 0;
          return;
        }
      }
      items, n := [], 0;
      result, failed, forgone := CollectByAge(now, walks, cancelled);
    }
  }

  lemma ListedOne(stores: seq<StoreState>, s: nat, found: seq<Item>, cs: seq<Candidate>)
    requires s < |stores| && Listed(stores, s, found) && Observed(stores[s].fs, cs) && Lists(View(stores[s].fs), cs)
    ensures Listed(stores, s + 1, found + Tagged(s, cs))
  {
    DescribedOne(stores, s, found, cs);
    CompleteOne(stores, s, found, cs);
    DistinctOne(s, found, cs);
  }

  /** How the walk over one repository goes: the order of visits, the unlinks that fail, and
      whether it ends in an error. */
  datatype Walk = Walk(order: seq<Key>, bodyFails: set<Key>, metaFails: set<Key>, fails: bool)

  function Aged(st: StoreState, w: Walk, cutoff: int): GcRun { GcFold(st, w.order, cutoff, w.bodyFails, w.metaFails) }

  lemma AgedStore(st: StoreState, w: Walk, cutoff: int)
    requires Wf(st.fs) && WalkOf(st.fs, w.order) && ByteDrift(st) >= 0
    ensures var r := Aged(st, w, cutoff);
            Wf(r.st.fs) && ByteDrift(r.st) >= 0 && r.result.bytes == st.bytes - r.st.bytes && 0 <= r.st.bytes
  {
    AgeCollectionIsExact(st, w.order, cutoff, w.bodyFails, w.metaFails);
  }

  lemma AgedCounts(stores: seq<StoreState>, i: nat, w: Walk, cutoff: int)
    requires StoresSound(stores) && i < |stores| && WalkOf(stores[i].fs, w.order)
    ensures var r := Aged(stores[i], w, cutoff);
            CounterSum(stores[i := r.st]) == CounterSum(stores) - r.result.bytes && r.result.bytes <= CounterSum(stores)
  {
    var r := Aged(stores[i], w, cutoff);
    AgedStore(stores[i], w, cutoff);
    CounterUpdate(stores, i, r.st);
    forall j | 0 <= j < |stores| ensures stores[j].bytes >= 0 {
      assert ByteDrift(stores[j]) >= 0;
    }
    CounterAtLeast(stores, i);
  }

  lemma AgedIsSound(stores: seq<StoreState>, i: nat, w: Walk, cutoff: int)
    requires StoresSound(stores) && i < |stores| && WalkOf(stores[i].fs, w.order)
    ensures StoresSound(stores[i := Aged(stores[i], w, cutoff).st])
  {
    AgedStore(stores[i], w, cutoff);
  }
}
