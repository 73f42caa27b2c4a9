/** Keyed single-flight: the reference-counted lock table and the double-checked lookup around
    an upstream fetch, as a transition system over any number of requests. A step is one region
    under the table's mutex, one lock or unlock of an item, one lookup, or one fetch. */
module SingleFlight {
  import opened Totals

  type Key = string

  /** Where one request stands; ref is the lock item it counted itself on. */
  datatype Phase =
    | Looking
    | Wanting
    | Waiting(ref: nat)
    | Holding(ref: nat)
    | Fetching(ref: nat)
    | Finishing(ref: nat, hit: bool)
    | Releasing(ref: nat, hit: bool)
    | Done(hit: bool)
  {
    /** Counted in the item's refs. */
    predicate Counts() { Waiting? || Holding? || Fetching? || Finishing? || Releasing? }
    /** Holds the item's mutex. */
    predicate Owns() { Holding? || Fetching? || Finishing? }
  }

  datatype Request = Request(key: Key, cacheable: bool, phase: Phase)

  /** items: the map of the keyed locker; refs: the counter of each item; locked: items whose
      mutex is taken; next: the identity of the next item allocated. */
  datatype Table = Table(items: map<Key, nat>, refs: map<nat, int>, locked: set<nat>, next: nat)

  datatype World = World(requests: map<nat, Request>, table: Table, cached: set<Key>)

  datatype Label =
    | Arrive(id: nat, key: Key, cacheable: bool)
    | FirstLookup(id: nat)
    | Enter(id: nat)
    | Acquire(id: nat)
    | SecondLookup(id: nat)
    | Fetch(id: nat, stored: bool)
    | Unlock(id: nat)
    | Leave(id: nat)
    | Expire(key: Key)

  predicate Enabled(w: World, l: Label) {
    match l
    case Arrive(id, _, _) => id !in w.requests
    case FirstLookup(id) => id in w.requests && w.requests[id].phase.Looking?
    case Enter(id) => id in w.requests && w.requests[id].phase.Wanting?
    case Acquire(id) =>
      id in w.requests && w.requests[id].phase.Waiting? && w.requests[id].phase.ref !in w.table.locked
    case SecondLookup(id) => id in w.requests && w.requests[id].phase.Holding?
    case Fetch(id, stored) =>
      id in w.requests && w.requests[id].phase.Fetching? && (stored ==> w.requests[id].cacheable)
    case Unlock(id) => id in w.requests && w.requests[id].phase.Finishing?
    case Leave(id) => id in w.requests && w.requests[id].phase.Releasing?
    case Expire(key) => key in w.cached
  }

  function Move(w: World, id: nat, p: Phase): World
    requires id in w.requests
  {
    w.(requests := w.requests[id := w.requests[id].(phase := p)])
  }

  function RefsOf(t: Table, r: nat): int { if r in t.refs then t.refs[r] else 0 }

  /** The item of a key, allocated if there is none, with one more reference. */
  function Counted(t: Table, key: Key): Table {
    if key in t.items then
      var r := t.items[key];
      t.(refs := t.refs[r := RefsOf(t, r) + 1])
    else Table(t.items[key := t.next], t.refs[t.next := 1], t.locked, t.next + 1)
  }

  /** One reference less on the caller's item; at zero the key's map entry goes. */
  function Uncounted(t: Table, key: Key, r: nat): Table {
    var n := RefsOf(t, r) - 1;
    Table(if n == 0 then t.items - {key} else t.items, t.refs[r := n], t.locked, t.next)
  }

  function Next(w: World, l: Label): World
    requires Enabled(w, l)
  {
    match l
    case Arrive(id, key, cacheable) =>
      w.(requests := w.requests[id := Request(key, cacheable, if cacheable then Looking else Wanting)])
    case FirstLookup(id) => Move(w, id, if w.requests[id].key in w.cached then Done(true) else Wanting)
    case Enter(id) =>
      var table := Counted(w.table, w.requests[id].key);
      Move(w.(table := table), id, Waiting(table.items[w.requests[id].key]))
    case Acquire(id) =>
      var r := w.requests[id].phase.ref;
      Move(w.(table := w.table.(locked := w.table.locked + {r})), id, Holding(r))
    case SecondLookup(id) =>
      var r := w.requests[id].phase.ref;
      var cached := w.requests[id].cacheable && w.requests[id].key in w.cached;
      Move(w, id, if cached then Finishing(r, true) else Fetching(r))
    case Fetch(id, stored) =>
      Move(w.(cached := if stored then w.cached + {w.requests[id].key} else w.cached), id,
           Finishing(w.requests[id].phase.ref, false))
    case Unlock(id) =>
      var p := w.requests[id].phase;
      Move(w.(table := w.table.(locked := w.table.locked - {p.ref})), id, Releasing(p.ref, p.hit))
    case Leave(id) =>
      var p := w.requests[id].phase;
      Move(w.(table := Uncounted(w.table, w.requests[id].key, p.ref)), id, Done(p.hit))
    case Expire(key) => w.(cached := w.cached - {key})
  }

  /** The table itself: the two regions its mutex guards. */
  class KeyedLocker {
    var items: map<Key, nat>
    var refs: map<nat, int>
    var locked: set<nat>
    var next: nat

    constructor ()
      ensures State() == Table(map[], map[], {}, 0)
    {
      items, refs, locked, next := map[], map[], {}, 0;
    }

    ghost function State(): Table
      reads this
    {
      Table(items, refs, locked, next)
    }

    /** Finds or allocates the key's item and counts the caller on it. */
    method Count(key: Key) returns (item: nat)
      modifies this`items, this`refs, this`next
      ensures State() == Counted(old(State()), key) && key in items && item == items[key]
    {
      if key !in items {
        items, refs, next := items[key := next], refs[next := 0], next + 1;
      }
      item := items[key];
      refs := refs[item := (if item in refs then refs[item] else 0) + 1];
    }

    /** Takes the caller off its item, and the item off the map if it was the last. */
    method Uncount(key: Key, item: nat)
      modifies this`items, this`refs
      ensures State() == Uncounted(old(State()), key, item)
    {
      refs := refs[item := (if item in refs then refs[item] else 0) - 1];
      if refs[item] == 0 {
        items := items - {key};
      }
    }
  }

  // ---------------------------------------------------------------- the lock table's invariant

  function Crowd(requests: map<nat, Request>, key: Key): set<nat> {
    set id | id in requests && requests[id].key == key && requests[id].phase.Counts()
  }

  /** Requests interested in one key share one item, and items of different keys differ. */
  ghost predicate Shared(requests: map<nat, Request>, t: Table) {
    && (forall id :: id in requests && requests[id].phase.Counts() ==>
          requests[id].key in t.items && t.items[requests[id].key] == requests[id].phase.ref)
    && (forall j, k :: j in t.items && k in t.items && t.items[j] == t.items[k] ==> j == k)
    && (forall k :: k in t.items ==> t.items[k] < t.next)
  }

  /** A key is in the map exactly while somebody is interested in it, and its item's counter is
      the number of those requests: holders, waiters, and those about to leave. */
  ghost predicate Exact(requests: map<nat, Request>, t: Table) {
    && (forall k :: k in t.items <==> Crowd(requests, k) != {})
    && (forall k :: k in t.items ==> RefsOf(t, t.items[k]) == |Crowd(requests, k)|)
  }

  predicate OwnsSame(requests: map<nat, Request>, i: nat, j: nat) {
    && i in requests && j in requests && requests[i].phase.Owns() && requests[j].phase.Owns()
    && requests[i].phase.ref == requests[j].phase.ref
  }

  /** An item's mutex is taken exactly while one request owns it, and never by two. */
  ghost predicate Exclusive(requests: map<nat, Request>, t: Table) {
    && (forall id :: id in requests && requests[id].phase.Owns() ==> requests[id].phase.ref in t.locked)
    && (forall r :: r in t.locked ==>
          exists id :: id in requests && requests[id].phase.Owns() && requests[id].phase.ref == r)
    && (forall i, j :: OwnsSame(requests, i, j) ==> i == j)
  }

  ghost predicate Inv(w: World) {
    Shared(w.requests, w.table) && Exact(w.requests, w.table) && Exclusive(w.requests, w.table)
  }

  lemma CrowdMoves(requests: map<nat, Request>, id: nat, q: Request, key: Key)
    requires id in requests ==> requests[id].key == q.key
    ensures Crowd(requests[id := q], key)
         == if q.key == key && q.phase.Counts() then Crowd(requests, key) + {id} else Crowd(requests, key) - {id}
    ensures id in Crowd(requests, key) <==> id in requests && requests[id].key == key && requests[id].phase.Counts()
  {
  }

  lemma SameCrowds(requests: map<nat, Request>, id: nat, q: Request)
    requires id in requests ==> requests[id].key == q.key && requests[id].phase.Counts() == q.phase.Counts()
    requires id !in requests ==> !q.phase.Counts()
    ensures forall k :: Crowd(requests[id := q], k) == Crowd(requests, k)
  {
    forall k ensures Crowd(requests[id := q], k) == Crowd(requests, k) {
      CrowdMoves(requests, id, q, k);
    }
  }

  lemma EnterKeepsExact(w: World, id: nat)
    requires Inv(w) && Enabled(w, Enter(id))
    ensures Exact(Next(w, Enter(id)).requests, Next(w, Enter(id)).table)
  {
    var w' := Next(w, Enter(id));
    forall k
      ensures k in w'.table.items <==> Crowd(w'.requests, k) != {}
      ensures k in w'.table.items ==> RefsOf(w'.table, w'.table.items[k]) == |Crowd(w'.requests, k)|
    {
      CrowdMoves(w.requests, id, w'.requests[id], k);
      assert k !in w.table.items ==> Crowd(w.requests, k) == {};
    }
  }

  lemma EnterKeepsShared(w: World, id: nat)
    requires Inv(w) && Enabled(w, Enter(id))
    ensures Shared(Next(w, Enter(id)).requests, Next(w, Enter(id)).table)
  {
  }

  lemma EnterKeepsExclusive(w: World, id: nat)
    requires Inv(w) && Enabled(w, Enter(id))
    ensures Exclusive(Next(w, Enter(id)).requests, Next(w, Enter(id)).table)
  {
    OwnersStay(w, id, Next(w, Enter(id)));
  }

  /** A step by a request that owns nothing before or after it leaves ownership alone. */
  lemma OwnersStay(w: World, id: nat, w': World)
    requires Exclusive(w.requests, w.table) && w'.table.locked == w.table.locked
    requires id in w'.requests && w'.requests == w.requests[id := w'.requests[id]]
    requires id in w.requests && w.requests[id].phase.Owns() ==>
               w'.requests[id].phase.Owns() && w'.requests[id].phase.ref == w.requests[id].phase.ref
    requires w'.requests[id].phase.Owns() ==>
               id in w.requests && w.requests[id].phase.Owns() && w'.requests[id].phase.ref == w.requests[id].phase.ref
    ensures Exclusive(w'.requests, w'.table)
  {
    forall i, j | OwnsSame(w'.requests, i, j) ensures i == j {
      assert OwnsSame(w.requests, i, j);
    }
    forall r | r in w'.table.locked
      ensures exists i :: i in w'.requests && w'.requests[i].phase.Owns() && w'.requests[i].phase.ref == r
    {
      var i :| i in w.requests && w.requests[i].phase.Owns() && w.requests[i].phase.ref == r;
      assert i in w'.requests && w'.requests[i].phase.Owns() && w'.requests[i].phase.ref == r;
    }
  }

  lemma LeaveKeepsExactFor(w: World, id: nat, k: Key)
    requires Inv(w) && Enabled(w, Leave(id))
    ensures var w' := Next(w, Leave(id));
            && (k in w'.table.items <==> Crowd(w'.requests, k) != {})
            && (k in w'.table.items ==> RefsOf(w'.table, w'.table.items[k]) == |Crowd(w'.requests, k)|)
  {
    var w' := Next(w, Leave(id));
    CrowdMoves(w.requests, id, w'.requests[id], k);
    if k == w.requests[id].key {
      assert |Crowd(w'.requests, k)| == |Crowd(w.requests, k)| - 1;
    }
  }

  lemma LeaveKeepsExact(w: World, id: nat)
    requires Inv(w) && Enabled(w, Leave(id))
    ensures Exact(Next(w, Leave(id)).requests, Next(w, Leave(id)).table)
  {
    forall k
      ensures var w' := Next(w, Leave(id));
              && (k in w'.table.items <==> Crowd(w'.requests, k) != {})
              && (k in w'.table.items ==> RefsOf(w'.table, w'.table.items[k]) == |Crowd(w'.requests, k)|)
    {
      LeaveKeepsExactFor(w, id, k);
    }
  }

  /** An item leaves the map only when nobody refers to it any more. */
  lemma LeaveKeepsShared(w: World, id: nat)
    requires Inv(w) && Enabled(w, Leave(id))
    ensures Shared(Next(w, Leave(id)).requests, Next(w, Leave(id)).table)
  {
    var w' := Next(w, Leave(id));
    LeaveKeepsExact(w, id);
    forall i | i in w'.requests && w'.requests[i].phase.Counts()
      ensures w'.requests[i].key in w'.table.items && w'.table.items[w'.requests[i].key] == w'.requests[i].phase.ref
    {
      assert i in Crowd(w'.requests, w'.requests[i].key);
    }
  }

  lemma AcquireKeepsExclusive(w: World, id: nat)
    requires Inv(w) && Enabled(w, Acquire(id))
    ensures Exclusive(Next(w, Acquire(id)).requests, Next(w, Acquire(id)).table)
  {
    var w' := Next(w, Acquire(id));
    forall i, j | OwnsSame(w'.requests, i, j) ensures i == j {
      if i != id && j != id { assert OwnsSame(w.requests, i, j); }
    }
    forall r | r in w'.table.locked
      ensures exists i :: i in w'.requests && w'.requests[i].phase.Owns() && w'.requests[i].phase.ref == r
    {
      if r == w.requests[id].phase.ref {
        assert w'.requests[id].phase.Owns();
      } else {
        var i :| i in w.requests && w.requests[i].phase.Owns() && w.requests[i].phase.ref == r;
        assert w'.requests[i].phase.Owns() && w'.requests[i].phase.ref == r;
      }
    }
  }

  lemma UnlockKeepsExclusive(w: World, id: nat)
    requires Inv(w) && Enabled(w, Unlock(id))
    ensures Exclusive(Next(w, Unlock(id)).requests, Next(w, Unlock(id)).table)
  {
    var w', r0 := Next(w, Unlock(id)), w.requests[id].phase.ref;
    forall i, j | OwnsSame(w'.requests, i, j) ensures i == j {
      assert OwnsSame(w.requests, i, j);
    }
    forall i | i in w'.requests && w'.requests[i].phase.Owns()
      ensures w'.requests[i].phase.ref in w'.table.locked
    {
      if w.requests[i].phase.ref == r0 { assert OwnsSame(w.requests, i, id); }
    }
    forall r | r in w'.table.locked
      ensures exists i :: i in w'.requests && w'.requests[i].phase.Owns() && w'.requests[i].phase.ref == r
    {
      var i :| i in w.requests && w.requests[i].phase.Owns() && w.requests[i].phase.ref == r;
      assert w'.requests[i].phase.Owns() && w'.requests[i].phase.ref == r;
    }
  }

  /** Steps that neither count nor uncount their request. */
  lemma QuietKeepsTable(w: World, id: nat, w': World)
    requires Shared(w.requests, w.table) && Exact(w.requests, w.table)
    requires id in w'.requests && w'.requests == w.requests[id := w'.requests[id]]
    requires w'.table == w.table.(locked := w'.table.locked)
    requires id in w.requests ==>
               && w.requests[id].key == w'.requests[id].key
               && w.requests[id].phase.Counts() == w'.requests[id].phase.Counts()
               && (w.requests[id].phase.Counts() ==> w.requests[id].phase.ref == w'.requests[id].phase.ref)
    requires id !in w.requests ==> !w'.requests[id].phase.Counts()
    ensures Shared(w'.requests, w'.table) && Exact(w'.requests, w'.table)
  {
    SameCrowds(w.requests, id, w'.requests[id]);
  }

  /** Every step keeps the lock table exact, in every interleaving of any number of requests. */
  lemma StepKeepsInv(w: World, l: Label)
    requires Inv(w) && Enabled(w, l)
    ensures Inv(Next(w, l))
  {
    match l {
      case Enter(id) => EnterKeepsExact(w, id); EnterKeepsShared(w, id); EnterKeepsExclusive(w, id);
      case Leave(id) => LeaveKeepsExact(w, id); LeaveKeepsShared(w, id); OwnersStay(w, id, Next(w, l));
      case Acquire(id) => QuietKeepsTable(w, id, Next(w, l)); AcquireKeepsExclusive(w, id);
      case Unlock(id) => QuietKeepsTable(w, id, Next(w, l)); UnlockKeepsExclusive(w, id);
      case Arrive(id, _, _) => QuietKeepsTable(w, id, Next(w, l)); OwnersStay(w, id, Next(w, l));
      case FirstLookup(id) => QuietKeepsTable(w, id, Next(w, l)); OwnersStay(w, id, Next(w, l));
      case SecondLookup(id) => QuietKeepsTable(w, id, Next(w, l)); OwnersStay(w, id, Next(w, l));
      case Fetch(id, _) => QuietKeepsTable(w, id, Next(w, l)); OwnersStay(w, id, Next(w, l));
      case Expire(_) =>
    }
  }

  // ---------------------------------------------------------------- what the table is for

  /** At most one request per key is between lock and unlock. */
  lemma OneOwnerPerKey(w: World, i: nat, j: nat)
    requires Inv(w) && i in w.requests && j in w.requests && w.requests[i].key == w.requests[j].key
    requires w.requests[i].phase.Owns() && w.requests[j].phase.Owns()
    ensures i == j
  {
    assert OwnsSame(w.requests, i, j);
  }

  predicate Finished(r: Request) { r.phase.Done? }

  /** The one thing a request can do next. */
  function Turn(w: World, id: nat, stored: bool): Label
    requires id in w.requests && !w.requests[id].phase.Done?
  {
    match w.requests[id].phase
    case Looking => FirstLookup(id)
    case Wanting => Enter(id)
    case Waiting(_) => Acquire(id)
    case Holding(_) => SecondLookup(id)
    case Fetching(_) => Fetch(id, stored && w.requests[id].cacheable)
    case Finishing(_, _) => Unlock(id)
    case Releasing(_, _) => Leave(id)
  }

  lemma OwnerCanStep(w: World, id: nat, stored: bool)
    requires id in w.requests && w.requests[id].phase.Owns()
    ensures !Finished(w.requests[id]) && Enabled(w, Turn(w, id, stored))
  {
  }

  /** No deadlock: while some request is unfinished, some unfinished request can take its turn. */
  lemma SomebodyCanStep(w: World, id: nat, stored: bool) returns (j: nat)
    requires Inv(w) && id in w.requests && !Finished(w.requests[id])
    ensures j in w.requests && !Finished(w.requests[j]) && Enabled(w, Turn(w, j, stored))
  {
    if Enabled(w, Turn(w, id, stored)) {
      j := id;
    } else {
      assert w.requests[id].phase.ref in w.table.locked;
      j :| j in w.requests && w.requests[j].phase.Owns() && w.requests[j].phase.ref == w.requests[id].phase.ref;
      OwnerCanStep(w, j, stored);
    }
  }

  function Left(p: Phase): nat {
    match p
    case Looking => 7
    case Wanting => 6
    case Waiting(_) => 5
    case Holding(_) => 4
    case Fetching(_) => 3
    case Finishing(_, _) => 2
    case Releasing(_, _) => 1
    case Done(_) => 0
  }

  function Loads(requests: map<nat, Request>): map<nat, nat> { map id | id in requests :: Left(requests[id].phase) }

  ghost function Work(requests: map<nat, Request>): nat { Total(Loads(requests)) }

  lemma LoadsUpdate(requests: map<nat, Request>, id: nat, q: Request)
    requires id in requests && Left(q.phase) < Left(requests[id].phase)
    ensures Work(requests[id := q]) < Work(requests)
  {
    assert Loads(requests[id := q]) == Loads(requests)[id := Left(q.phase)];
    TotalUpdate(Loads(requests), id, Left(q.phase));
    TotalRemove(Loads(requests), id);
  }

  /** Every turn uses up work, so a run that always lets somebody step finishes every request. */
  lemma TurnsFinish(w: World, id: nat, stored: bool)
    requires id in w.requests && !Finished(w.requests[id]) && Enabled(w, Turn(w, id, stored))
    ensures Work(Next(w, Turn(w, id, stored)).requests) < Work(w.requests)
    ensures Next(w, Turn(w, id, stored)).requests.Keys == w.requests.Keys
  {
    LoadsUpdate(w.requests, id, Next(w, Turn(w, id, stored)).requests[id]);
  }

  ghost predicate Runs(w: World, ls: seq<Label>, w': World)
    decreases ls
  {
    if ls == [] then w' == w else Enabled(w, ls[0]) && Runs(Next(w, ls[0]), ls[1..], w')
  }

  lemma {:induction false} RunKeepsInv(w: World, ls: seq<Label>, w': World)
    requires Inv(w) && Runs(w, ls, w')
    ensures Inv(w')
    decreases ls
  {
    if ls != [] {
      StepKeepsInv(w, ls[0]);
      RunKeepsInv(Next(w, ls[0]), ls[1..], w');
    }
  }

  /** One turn of somebody, if anybody is unfinished. */
  lemma SomeTurn(w: World, id: nat, stored: bool) returns (l: Label)
    requires Inv(w) && id in w.requests && !Finished(w.requests[id])
    ensures Enabled(w, l) && Inv(Next(w, l))
    ensures Work(Next(w, l).requests) < Work(w.requests) && Next(w, l).requests.Keys == w.requests.Keys
  {
    var j := SomebodyCanStep(w, id, stored);
    l := Turn(w, j, stored);
    TurnsFinish(w, j, stored);
    StepKeepsInv(w, l);
  }

  /** From every reachable state the requests present can all be run to completion. */
  lemma EverybodyCanFinish(w: World, stored: bool) returns (ls: seq<Label>, w': World)
    requires Inv(w)
    ensures Runs(w, ls, w') && w'.requests.Keys == w.requests.Keys
    ensures forall id :: id in w'.requests ==> Finished(w'.requests[id])
    decreases Work(w.requests)
  {
    if id :| id in w.requests && !Finished(w.requests[id]) {
      var l := SomeTurn(w, id, stored);
      var rest: seq<Label>;
      rest, w' := EverybodyCanFinish(Next(w, l), stored);
      ls := [l] + rest;
      assert ls[1..] == rest;
    } else {
      ls, w' := [], w;
    }
  }

  // ---------------------------------------------------------------- who is answered from the cache

  /** The request has been answered from the cache. */
  predicate FromCache(p: Phase) {
    match p
    case Finishing(_, hit) => hit
    case Releasing(_, hit) => hit
    case Done(hit) => hit
    case _ => false
  }

  /** A request that bypasses the cache neither looks it up first nor is answered from it. */
  ghost predicate Bypassing(w: World) {
    forall id :: id in w.requests && !w.requests[id].cacheable ==>
      !w.requests[id].phase.Looking? && !FromCache(w.requests[id].phase)
  }

  lemma StepKeepsBypassing(w: World, l: Label)
    requires Bypassing(w) && Enabled(w, l)
    ensures Bypassing(Next(w, l))
    ensures forall id :: id in w.requests ==>
              && id in Next(w, l).requests
              && Next(w, l).requests[id].key == w.requests[id].key
              && Next(w, l).requests[id].cacheable == w.requests[id].cacheable
  {
  }

  lemma {:induction false} RunKeepsBypassing(w: World, ls: seq<Label>, w': World)
    requires Bypassing(w) && Runs(w, ls, w')
    ensures Bypassing(w')
    decreases ls
  {
    if ls != [] {
      StepKeepsBypassing(w, ls[0]);
      RunKeepsBypassing(Next(w, ls[0]), ls[1..], w');
    }
  }

  /** In every schedule: a request that must not be answered from the cache never is, at whatever
      point it stands and whatever is cached. */
  lemma BypassIsNeverHit(w: World, ls: seq<Label>, w': World, id: nat)
    requires w.requests == map[] && Runs(w, ls, w') && id in w'.requests && !w'.requests[id].cacheable
    ensures w'.requests[id].phase != Done(true)
    ensures forall ref :: w'.requests[id].phase != Finishing(ref, true) && w'.requests[id].phase != Releasing(ref, true)
  {
    RunKeepsBypassing(w, ls, w');
  }

  /** A lookup on either side of the lock is a hit exactly if the request may be answered from the
      cache and its key is cached. */
  lemma LookupHitsIff(w: World, l: Label)
    requires Bypassing(w) && Enabled(w, l) && (l.FirstLookup? || l.SecondLookup?)
    ensures FromCache(Next(w, l).requests[l.id].phase) <==>
              w.requests[l.id].cacheable && w.requests[l.id].key in w.cached
  {
  }

  /** Nothing else makes a request a hit. */
  lemma OnlyLookupsHit(w: World, l: Label, id: nat)
    requires Bypassing(w) && Enabled(w, l) && id in Next(w, l).requests && FromCache(Next(w, l).requests[id].phase)
    ensures id in w.requests
    ensures FromCache(w.requests[id].phase)
            || ((l == FirstLookup(id) || l == SecondLookup(id))
                && w.requests[id].cacheable && w.requests[id].key in w.cached)
  {
  }

  /** A key enters the cache by a stored fetch of a request for it, and leaves it by expiring. */
  lemma CacheChanges(w: World, l: Label, key: Key)
    requires Enabled(w, l)
    ensures key in Next(w, l).cached <==>
              || (key in w.cached && l != Expire(key))
              || (l.Fetch? && l.stored && w.requests[l.id].cacheable && w.requests[l.id].key == key)
  {
  }

  // ---------------------------------------------------------------- coalescing

  /** A cacheable request for the key that went, or is going, without a hit. */
  predicate Missed(r: Request, key: Key) {
    && r.key == key && r.cacheable
    && match r.phase
       case Finishing(_, hit) => !hit
       case Releasing(_, hit) => !hit
       case Done(hit) => !hit
       case _ => false
  }

  predicate Hit(r: Request, key: Key) {
    && r.key == key && r.cacheable
    && match r.phase
       case Finishing(_, hit) => hit
       case Releasing(_, hit) => hit
       case Done(hit) => hit
       case _ => false
  }

  /** One fetch of the key once it is cached, none and no hit before. */
  ghost predicate Coalesced(w: World, key: Key) {
    && (forall i, j ::
          i in w.requests && j in w.requests && Missed(w.requests[i], key) && Missed(w.requests[j], key) ==> i == j)
    && (key in w.cached ==> exists i :: i in w.requests && Missed(w.requests[i], key))
    && (key !in w.cached ==> forall i :: i in w.requests ==> !Missed(w.requests[i], key) && !Hit(w.requests[i], key))
    && (forall i :: i in w.requests && FetchingFor(w.requests[i], key) ==> key !in w.cached)
  }

  /** The key's fetches succeed and are stored, and its entry is neither collected nor expired. */
  predicate Undisturbed(w: World, l: Label, key: Key)
    requires Enabled(w, l)
  {
    && l != Expire(key)
    && (l.Fetch? && w.requests[l.id].key == key && w.requests[l.id].cacheable ==> l.stored)
  }

  predicate FetchingFor(r: Request, key: Key) { r.key == key && r.cacheable && r.phase.Fetching? }

  /** A step of one request that neither fetches the key nor changes whether it is cached. */
  lemma MoveCoalesces(w: World, w': World, id: nat, key: Key)
    requires Coalesced(w, key) && (key in w'.cached <==> key in w.cached)
    requires id in w'.requests && w'.requests == w.requests[id := w'.requests[id]]
    requires Missed(w'.requests[id], key) <==> id in w.requests && Missed(w.requests[id], key)
    requires Hit(w'.requests[id], key) ==> key in w.cached || (id in w.requests && Hit(w.requests[id], key))
    requires FetchingFor(w'.requests[id], key) ==> key !in w.cached
    ensures Coalesced(w', key)
  {
    if key in w.cached {
      var i :| i in w.requests && Missed(w.requests[i], key);
      assert i in w'.requests && Missed(w'.requests[i], key);
    }
  }

  lemma FetchCoalesces(w: World, id: nat, key: Key)
    requires Inv(w) && Coalesced(w, key) && Enabled(w, Fetch(id, true)) && FetchingFor(w.requests[id], key)
    ensures Coalesced(Next(w, Fetch(id, true)), key)
  {
    var w' := Next(w, Fetch(id, true));
    assert Missed(w'.requests[id], key);
    forall i | i in w.requests && FetchingFor(w.requests[i], key)
      ensures i == id
    {
      OneOwnerPerKey(w, i, id);
    }
  }

  lemma StepCoalesces(w: World, l: Label, key: Key)
    requires Inv(w) && Coalesced(w, key) && Enabled(w, l) && Undisturbed(w, l, key)
    ensures Coalesced(Next(w, l), key)
  {
    if l.Expire? {
    } else if l.Fetch? && FetchingFor(w.requests[l.id], key) {
      FetchCoalesces(w, l.id, key);
    } else {
      MoveCoalesces(w, Next(w, l), l.id, key);
    }
  }

  ghost predicate UndisturbedRun(w: World, ls: seq<Label>, key: Key)
    decreases ls
  {
    ls == [] || (Enabled(w, ls[0]) && Undisturbed(w, ls[0], key) && UndisturbedRun(Next(w, ls[0]), ls[1..], key))
  }

  lemma {:induction false} RunCoalesces(w: World, ls: seq<Label>, w': World, key: Key)
    requires Inv(w) && Coalesced(w, key) && Runs(w, ls, w') && UndisturbedRun(w, ls, key)
    ensures Coalesced(w', key)
    decreases ls
  {
    if ls != [] {
      StepKeepsInv(w, ls[0]);
      StepCoalesces(w, ls[0], key);
      RunCoalesces(Next(w, ls[0]), ls[1..], w', key);
    }
  }

  /** Coalescing, in every schedule: of any number of requests for a key that was not cached,
      exactly one fetched it from upstream, and all the others were served from the cache. */
  lemma ExactlyOneFetch(w: World, ls: seq<Label>, w': World, key: Key, first: nat)
    requires w.requests == map[] && w.table.items == map[] && w.table.locked == {} && key !in w.cached
    requires Runs(w, ls, w') && UndisturbedRun(w, ls, key)
    requires first in w'.requests && w'.requests[first].key == key && w'.requests[first].cacheable
    requires forall i :: i in w'.requests && w'.requests[i].key == key && w'.requests[i].cacheable ==>
               Finished(w'.requests[i])
    ensures exists f :: f in w'.requests && w'.requests[f] == Request(key, true, Done(false))
                        && forall i ::
                             i in w'.requests && w'.requests[i].key == key && w'.requests[i].cacheable && i != f ==>
                             w'.requests[i].phase == Done(true)
  {
    assert forall k :: Crowd(w.requests, k) == {};
    RunCoalesces(w, ls, w', key);
    assert Missed(w'.requests[first], key) || Hit(w'.requests[first], key);
    var f :| f in w'.requests && Missed(w'.requests[f], key);
    forall i | i in w'.requests && w'.requests[i].key == key && w'.requests[i].cacheable && i != f
      ensures w'.requests[i].phase == Done(true)
    {
      assert Missed(w'.requests[i], key) || Hit(w'.requests[i], key);
    }
  }
}
