/** Several stores, private uploads and collections under one shared budget, in any interleaving:
    the budget's committed bytes are exactly what the parts hold. */
module Accounting {
  import opened Basics
  import opened FileSystem
  import opened StoreSpec
  import opened PutSpec
  import opened StoreMachine
  import opened StoreRuns
  import opened Orphans
  import opened Totals
  import opened Storage

  /** Who holds a reservation: a put on one of the stores, or a private upload. */
  datatype Holder = Putting(store: nat, id: nat) | Uploading(id: nat)

  /** pending: bytes a collection took from a store and has not yet passed to Remove;
      forgone: bytes never passed on because the collection failed; initial: the committed bytes
      the budget started from. */
  datatype Global = Global(
    stores: seq<Machine>, ledger: Ledger, held: map<Holder, nat>, uploaded: nat, pending: nat, forgone: nat,
    initial: int64)

  datatype Move =
    | Reserving(h: Holder, bytes: int64, free: int64)
    | Releasing(h: Holder)
    | StoreStep(i: nat, l: Label)
    | Upload(id: nat, size: nat)
    | Returning(bytes: int64)
    | Forgoing(amount: nat)
    | Bypassing(bytes: int64)
    | Restarting(stops: seq<Stop>, privateBytes: nat)

  /** Where a crash of the process finds one store: in a region, after n of its syscalls. */
  datatype Stop = Stop(region: Region, n: nat)

  function BytesOf(stores: seq<Machine>): int {
    if stores == [] then 0 else stores[0].st.bytes + BytesOf(stores[1..])
  }

  lemma {:induction false} BytesUpdate(stores: seq<Machine>, i: nat, m: Machine)
    requires i < |stores|
    ensures BytesOf(stores[i := m]) == BytesOf(stores) - stores[i].st.bytes + m.st.bytes
  {
    if i == 0 {
      assert stores[i := m][1..] == stores[1..];
    } else {
      assert stores[i := m][1..] == stores[1..][i - 1 := m];
      BytesUpdate(stores[1..], i - 1, m);
    }
  }

  lemma {:induction false} BytesAtLeast(stores: seq<Machine>, i: nat)
    requires i <= |stores| && forall j :: 0 <= j < |stores| ==> stores[j].st.bytes >= 0
    ensures BytesOf(stores) >= if i < |stores| then stores[i].st.bytes else 0
    decreases |stores|
  {
    if stores != [] {
      BytesAtLeast(stores[1..], if i == 0 then |stores| - 1 else i - 1);
    }
  }

  /** Bytes a step takes from a store's counter by age or pressure collection. */
  function Collected(m: Machine, l: Label): nat {
    match l
    case Finish(Evicting(c, bodyFails, _)) => if WillRemove(m.st.fs, c, bodyFails) then c.bytes else 0
    case Finish(Collecting(k, cutoff, bodyFails, _)) =>
      (match Judge(m.st.fs, k, cutoff) case Expired(_, size) => if bodyFails then 0 else size case _ => 0)
    case _ => 0
  }

  predicate IsCommit(l: Label) { l.Finish? && l.region.Committing? }

  /** The files reach their final place, so the reservation is asked to commit. */
  predicate Publishing(m: Machine, l: Label) {
    && IsCommit(l) && l.region.id in m.flights && m.flights[l.region.id].Described?
    && CommitOk(m.st.fs, m.flights[l.region.id].job, l.region.faults)
  }

  function Size(m: Machine, l: Label): nat
    requires Publishing(m, l)
  {
    |m.flights[l.region.id].body|
  }

  function Replaced(m: Machine, l: Label): nat
    requires Publishing(m, l)
  {
    PreviousOf(m.st.fs, m.flights[l.region.id].job.key).bytes
  }

  predicate Fits(g: Global, i: nat, l: Label)
    requires i < |g.stores| && Publishing(g.stores[i], l) && Putting(i, l.region.id) in g.held
  {
    CommitFits(g.ledger, Wrap(g.held[Putting(i, l.region.id)]), Wrap(Size(g.stores[i], l)),
               Wrap(Replaced(g.stores[i], l)))
  }

  function Capped(x: int): int { if x <= MAX_INT64 as int then x else MAX_INT64 as int }

  /** The store after a crash and New. */
  ghost function Stopped(m: Machine, s: Stop): Machine
    requires Enabled(m, Crash(s.region, s.n))
  {
    Next(m, Crash(s.region, s.n))
  }

  ghost predicate CanStop(stores: seq<Machine>, stops: seq<Stop>) {
    |stops| == |stores| && forall i :: 0 <= i < |stores| ==> Enabled(stores[i], Crash(stops[i].region, stops[i].n))
  }

  ghost function AllStopped(stores: seq<Machine>, stops: seq<Stop>): seq<Machine>
    requires CanStop(stores, stops)
  {
    seq(|stores|, i requires 0 <= i < |stores| => Stopped(stores[i], stops[i]))
  }

  ghost predicate Possible(g: Global, mv: Move) {
    match mv
    case Reserving(h, _, _) =>
      h !in g.held && (h.Putting? ==> h.store < |g.stores| && h.id !in g.stores[h.store].flights)
    case Releasing(h) => h in g.held && (h.Putting? ==> h.store < |g.stores| && h.id !in g.stores[h.store].flights)
    case StoreStep(i, l) =>
      && i < |g.stores| && Enabled(g.stores[i], l) && !l.Crash?
      && (l.Begin? ==> Putting(i, l.id) in g.held)
      && (l.Write? ==> Putting(i, l.id) in g.held
                       && |g.stores[i].flights[l.id].cached| + |l.bytes| <= g.held[Putting(i, l.id)])
      && (Publishing(g.stores[i], l) ==> Putting(i, l.region.id) in g.held)
    case Upload(id, size) => Uploading(id) in g.held && size <= MAX_INT64 as nat
    case Returning(n) => n as int <= g.pending
    case Forgoing(n) => n <= g.pending
    case Bypassing(_) => true
    case Restarting(stops, _) => CanStop(g.stores, stops)
  }

  /** The budget can hold this much more: with a byte budget it always can, without one as long as
      the bytes fit an int64. */
  predicate HasRoom(g: Global, more: int) {
    g.ledger.maxBytes > 0 || g.ledger.committed as int + more <= MAX_INT64 as int
  }

  /** The move does not push the committed bytes past the largest int64. */
  ghost predicate Bounded(g: Global, mv: Move)
    requires Possible(g, mv)
  {
    match mv
    case StoreStep(i, l) => Publishing(g.stores[i], l) ==> HasRoom(g, Size(g.stores[i], l) - Replaced(g.stores[i], l))
    case Upload(id, size) =>
      CommitFits(g.ledger, Wrap(g.held[Uploading(id)]), Wrap(size), 0) ==> HasRoom(g, size)
    case Restarting(stops, size) => BytesOf(AllStopped(g.stores, stops)) + size <= MAX_INT64 as int
    case _ => true
  }

  ghost predicate CanMove(g: Global, mv: Move) { Possible(g, mv) && Bounded(g, mv) }

  /** A refused commit takes its body away again; AccountingHolds shows it never happens. */
  function RefusedStore(m: Machine, l: Label): Machine
    requires Publishing(m, l)
  {
    var id := l.region.id;
    m.(st := AfterCommit(m.st, m.flights[id].job, l.region.faults.(refused := true)),
       flights := m.flights[id := Closing(Unwinding(m.flights[id]))])
  }

  /** The budget a start computes from what the stores and the private directories hold. */
  ghost function StartingFrom(stores: seq<Machine>, config: Ledger, privateBytes: nat): Global {
    var committed := StartCommitted(stores, privateBytes);
    Global(stores, config.(committed := committed, reserved := 0, bypassObjects := 0, bypassBytes := 0),
           map[], privateBytes, 0, 0, committed)
  }

  ghost function StartCommitted(stores: seq<Machine>, privateBytes: nat): int64 {
    var sum := BytesOf(stores) + privateBytes;
    if sum < 0 then 0 else Capped(sum) as int64
  }

  ghost function After(g: Global, mv: Move): Global
    requires Possible(g, mv)
  {
    match mv
    case Reserving(h, n, free) =>
      var l := Reserved(g.ledger, n, free);
      if Admits(g.ledger, n, free) then g.(ledger := l, held := g.held[h := n as nat]) else g.(ledger := l)
    case Releasing(h) => g.(ledger := Settled(g.ledger, Wrap(g.held[h])), held := g.held - {h})
    case StoreStep(i, l) =>
      var m := g.stores[i];
      if Publishing(m, l) then
        var h := Putting(i, l.region.id);
        g.(stores := g.stores[i := if Fits(g, i, l) then Next(m, l) else RefusedStore(m, l)],
           ledger := CommittedLedger(g.ledger, Wrap(g.held[h]), Wrap(Size(m, l)), Wrap(Replaced(m, l))),
           held := g.held - {h})
      else g.(stores := g.stores[i := Next(m, l)], pending := g.pending + Collected(m, l))
    case Upload(id, size) =>
      var h := Uploading(id);
      g.(ledger := CommittedLedger(g.ledger, Wrap(g.held[h]), Wrap(size), 0), held := g.held - {h},
         uploaded := g.uploaded + (if CommitFits(g.ledger, Wrap(g.held[h]), Wrap(size), 0) then size else 0))
    case Returning(n) =>
      g.(ledger := Removed(g.ledger, n), pending := if n > 0 then g.pending - n as int else g.pending)
    case Forgoing(n) => g.(pending := g.pending - n, forgone := g.forgone + n)
    case Bypassing(n) => g.(ledger := Bypassed(g.ledger, n))
    case Restarting(stops, size) => StartingFrom(AllStopped(g.stores, stops), g.ledger, size)
  }

  // ---------------------------------------------------------------- the invariant

  /** The budget's committed bytes are the stores' counters, the uploads, and what was collected
      but not yet, or never, passed on. */
  ghost predicate Accounted(g: Global) {
    g.ledger.committed as int == BytesOf(g.stores) + g.uploaded + g.pending + g.forgone
  }

  ghost predicate Budgeted(g: Global) {
    && Limited(g.ledger) && g.initial >= 0
    && (forall h :: h in g.held ==> 0 < g.held[h] <= MAX_INT64 as nat)
    && g.ledger.reserved as int == Total(g.held)
    && (g.ledger.maxBytes > 0 ==> g.ledger.committed as int + g.ledger.reserved as int <= Cap(g.ledger, g.initial))
  }

  /** A put that may still commit holds a reservation no smaller than what it wrote. */
  ghost predicate BackedPut(g: Global, i: nat, id: nat)
    requires i < |g.stores| && id in g.stores[i].flights
  {
    match g.stores[i].flights[id]
    case Spooling(_, _, cached) => Putting(i, id) in g.held && |cached| <= g.held[Putting(i, id)]
    case Described(_, body, _) => Putting(i, id) in g.held && |body| <= g.held[Putting(i, id)]
    case Closing(_) => true
  }

  ghost predicate Backed(g: Global) {
    forall i, id :: 0 <= i < |g.stores| && id in g.stores[i].flights ==> BackedPut(g, i, id)
  }

  ghost predicate EachOk(stores: seq<Machine>, starts: seq<map<Key, Entry>>) {
    |starts| == |stores| && forall i :: 0 <= i < |stores| ==> Inv(stores[i], starts[i])
  }

  ghost predicate StoresOk(g: Global, starts: seq<map<Key, Entry>>) { EachOk(g.stores, starts) }

  ghost predicate GlobalInv(g: Global, starts: seq<map<Key, Entry>>) {
    Accounted(g) && Budgeted(g) && Backed(g) && StoresOk(g, starts)
  }

  // ---------------------------------------------------------------- one store's counter

  lemma InvCounts(m: Machine, start: map<Key, Entry>)
    requires Inv(m, start)
    ensures ByteDrift(m.st) >= 0 && m.st.bytes >= 0
  {
    assert Steady(m, start);
  }

  lemma CommitMovesBytes(m: Machine, start: map<Key, Entry>, id: nat, f: CommitFaults)
    requires Inv(m, start) && RegionEnabled(m, Committing(id, f))
    ensures var l := Finish(Committing(id, f));
            && Finished(m, Committing(id, f)).st.bytes
                 == m.st.bytes + (if Publishing(m, l) then Size(m, l) - Replaced(m, l) else 0)
            && (Publishing(m, l) ==> Replaced(m, l) <= m.st.bytes)
  {
    WrittenIsReady(m, start, id);
    InvCounts(m, start);
    ReplacedFitsCounter(m.st, m.flights[id].job.key);
  }

  lemma RemovalMovesBytes(m: Machine, r: Region)
    requires RegionEnabled(m, r) && !r.Committing?
    ensures Finished(m, r).st.bytes == m.st.bytes - Collected(m, Finish(r))
  {
  }

  /** Only a successful commit and a collection move a store's counter, and by these amounts. */
  lemma StepMovesBytes(m: Machine, start: map<Key, Entry>, l: Label)
    requires Inv(m, start) && Enabled(m, l) && !l.Crash?
    ensures Next(m, l).st.bytes
         == m.st.bytes + (if Publishing(m, l) then Size(m, l) - Replaced(m, l) else 0) - Collected(m, l)
    ensures Publishing(m, l) ==> Collected(m, l) == 0 && Replaced(m, l) <= m.st.bytes
  {
    if IsCommit(l) {
      CommitMovesBytes(m, start, l.region.id, l.region.faults);
    } else if l.Finish? {
      RemovalMovesBytes(m, l.region);
    }
  }

  lemma StoresAreCounted(g: Global, starts: seq<map<Key, Entry>>)
    requires StoresOk(g, starts)
    ensures forall i :: 0 <= i < |g.stores| ==> g.stores[i].st.bytes >= 0
  {
    forall i | 0 <= i < |g.stores|
      ensures g.stores[i].st.bytes >= 0
    {
      InvCounts(g.stores[i], starts[i]);
    }
  }

  lemma BodyIsCovered(g: Global, i: nat, l: Label)
    requires Backed(g) && i < |g.stores| && Publishing(g.stores[i], l)
    ensures Putting(i, l.region.id) in g.held && Size(g.stores[i], l) <= g.held[Putting(i, l.region.id)]
  {
    assert BackedPut(g, i, l.region.id);
  }

  lemma ReplacedIsCovered(g: Global, starts: seq<map<Key, Entry>>, i: nat, l: Label)
    requires Accounted(g) && StoresOk(g, starts)
    requires i < |g.stores| && |starts| == |g.stores| && Inv(g.stores[i], starts[i])
    requires Enabled(g.stores[i], l) && Publishing(g.stores[i], l)
    ensures Replaced(g.stores[i], l) <= g.ledger.committed as int
  {
    StoresAreCounted(g, starts);
    BytesAtLeast(g.stores, i);
    StepMovesBytes(g.stores[i], starts[i], l);
  }

  lemma CoveredFits(g: Global, i: nat, l: Label)
    requires Budgeted(g) && i < |g.stores| && Publishing(g.stores[i], l) && Putting(i, l.region.id) in g.held
    requires Size(g.stores[i], l) <= g.held[Putting(i, l.region.id)]
             && Replaced(g.stores[i], l) <= g.ledger.committed as int
    ensures Fits(g, i, l)
  {
  }

  /** A put's commit is never refused: its reservation covers the body, and the budget covers
      the entry it replaces. */
  lemma CommitAlwaysFits(g: Global, starts: seq<map<Key, Entry>>, i: nat, l: Label)
    requires GlobalInv(g, starts) && CanMove(g, StoreStep(i, l)) && Publishing(g.stores[i], l)
    ensures Fits(g, i, l)
  {
    BodyIsCovered(g, i, l);
    ReplacedIsCovered(g, starts, i, l);
    CoveredFits(g, i, l);
  }

  lemma HeldFits(g: Global, h: Holder)
    requires Budgeted(g) && h in g.held
    ensures g.held[h] <= g.ledger.reserved as int && Total(g.held - {h}) == g.ledger.reserved as int - g.held[h]
    ensures Wrap(g.held[h]) as int == g.held[h]
  {
    TotalRemove(g.held, h);
  }

  /** Settling a reservation with an amount it covers moves the budget by exactly that amount. */
  lemma CommitMovesBudget(g: Global, h: Holder, actual: nat, replaced: nat)
    requires Budgeted(g) && h in g.held && g.ledger.committed >= 0
    requires actual <= g.held[h] && replaced <= g.ledger.committed as int && HasRoom(g, actual - replaced)
    ensures var l := CommittedLedger(g.ledger, Wrap(g.held[h]), Wrap(actual), Wrap(replaced));
            && l.committed as int == g.ledger.committed as int - replaced + actual
            && Budgeted(g.(ledger := l, held := g.held - {h}))
    ensures CommitFits(g.ledger, Wrap(g.held[h]), Wrap(actual), Wrap(replaced))
  {
    HeldFits(g, h);
  }

  // ---------------------------------------------------------------- steps of the budget alone

  lemma ReserveKeepsBudget(g: Global, h: Holder, n: int64, free: int64)
    requires Budgeted(g) && g.ledger.committed >= 0 && h !in g.held && Admits(g.ledger, n, free)
    ensures Budgeted(g.(ledger := Reserved(g.ledger, n, free), held := g.held[h := n as nat]))
  {
    AdmissionFits(g.ledger, n, free);
    assert g.held - {h} == g.held;
    TotalUpdate(g.held, h, n as nat);
  }

  lemma CommittedNonNegative(g: Global, starts: seq<map<Key, Entry>>)
    requires Accounted(g) && StoresOk(g, starts)
    ensures g.ledger.committed >= 0 && g.pending <= g.ledger.committed as int
  {
    StoresAreCounted(g, starts);
    BytesAtLeast(g.stores, |g.stores|);
  }

  /** Passing collected bytes on never meets the clamp at zero. */
  lemma RemoveNeverClamps(g: Global, starts: seq<map<Key, Entry>>, n: int64)
    requires GlobalInv(g, starts) && CanMove(g, Returning(n)) && n > 0
    ensures Removed(g.ledger, n).committed as int == g.ledger.committed as int - n as int >= 0
  {
    CommittedNonNegative(g, starts);
  }

  // ---------------------------------------------------------------- steps of a store

  lemma StoresKeepInv(g: Global, starts: seq<map<Key, Entry>>, i: nat, l: Label)
    requires StoresOk(g, starts) && i < |g.stores| && Enabled(g.stores[i], l)
    ensures StoresOk(g.(stores := g.stores[i := Next(g.stores[i], l)]), starts)
  {
    StepKeepsInv(g.stores[i], starts[i], l);
  }

  /** What a published body leaves when its commit fits. */
  lemma PublishAfter(g: Global, i: nat, l: Label)
    requires CanMove(g, StoreStep(i, l)) && Publishing(g.stores[i], l) && Fits(g, i, l)
    ensures var h := Putting(i, l.region.id);
            After(g, StoreStep(i, l))
              == g.(stores := g.stores[i := Next(g.stores[i], l)], held := g.held - {h},
                    ledger := CommittedLedger(g.ledger, Wrap(g.held[h]), Wrap(Size(g.stores[i], l)),
                                              Wrap(Replaced(g.stores[i], l))))
  {
  }

  lemma BudgetIgnoresStores(g: Global, stores: seq<Machine>)
    requires Budgeted(g)
    ensures Budgeted(g.(stores := stores))
  {
  }

  lemma SettleMovesBudget(g: Global, stores: seq<Machine>, h: Holder, actual: nat, replaced: nat)
    requires Budgeted(g) && h in g.held && g.ledger.committed >= 0
    requires actual <= g.held[h] && replaced <= g.ledger.committed as int && HasRoom(g, actual - replaced)
    ensures var l := CommittedLedger(g.ledger, Wrap(g.held[h]), Wrap(actual), Wrap(replaced));
            && Budgeted(g.(stores := stores, held := g.held - {h}, ledger := l))
            && l.committed as int == g.ledger.committed as int - replaced + actual
  {
    CommitMovesBudget(g, h, actual, replaced);
    var l := CommittedLedger(g.ledger, Wrap(g.held[h]), Wrap(actual), Wrap(replaced));
    BudgetIgnoresStores(g.(ledger := l, held := g.held - {h}), stores);
  }

  /** A published body settles its reservation. */
  lemma PublishMovesBudget(g: Global, starts: seq<map<Key, Entry>>, i: nat, l: Label)
    requires GlobalInv(g, starts) && CanMove(g, StoreStep(i, l)) && Publishing(g.stores[i], l)
    ensures After(g, StoreStep(i, l)).stores == g.stores[i := Next(g.stores[i], l)]
    ensures Budgeted(After(g, StoreStep(i, l)))
    ensures After(g, StoreStep(i, l)).ledger.committed as int
         == g.ledger.committed as int + Size(g.stores[i], l) - Replaced(g.stores[i], l)
  {
    CommitAlwaysFits(g, starts, i, l);
    BodyIsCovered(g, i, l);
    ReplacedIsCovered(g, starts, i, l);
    CommittedNonNegative(g, starts);
    PublishAfter(g, i, l);
    SettleMovesBudget(g, g.stores[i := Next(g.stores[i], l)], Putting(i, l.region.id),
                      Size(g.stores[i], l), Replaced(g.stores[i], l));
  }

  lemma StepAccounts(g: Global, g': Global, i: nat, m: Machine, moved: int, taken: nat)
    requires Accounted(g) && i < |g.stores| && g'.stores == g.stores[i := m]
    requires g'.ledger.committed as int == g.ledger.committed as int + moved
    requires m.st.bytes == g.stores[i].st.bytes + moved - taken
    requires g'.uploaded == g.uploaded && g'.pending == g.pending + taken && g'.forgone == g.forgone
    ensures Accounted(g')
  {
    BytesUpdate(g.stores, i, m);
  }

  lemma StoreStepAccounts(g: Global, starts: seq<map<Key, Entry>>, i: nat, l: Label)
    requires GlobalInv(g, starts) && CanMove(g, StoreStep(i, l))
    ensures Accounted(After(g, StoreStep(i, l)))
  {
    StepMovesBytes(g.stores[i], starts[i], l);
    if Publishing(g.stores[i], l) {
      PublishMovesBudget(g, starts, i, l);
      StepAccounts(g, After(g, StoreStep(i, l)), i, Next(g.stores[i], l),
                   Size(g.stores[i], l) - Replaced(g.stores[i], l), 0);
    } else {
      StepAccounts(g, After(g, StoreStep(i, l)), i, Next(g.stores[i], l), 0, Collected(g.stores[i], l));
    }
  }

  lemma StoreStepBudgets(g: Global, starts: seq<map<Key, Entry>>, i: nat, l: Label)
    requires GlobalInv(g, starts) && CanMove(g, StoreStep(i, l))
    ensures Budgeted(After(g, StoreStep(i, l)))
  {
    if Publishing(g.stores[i], l) { PublishMovesBudget(g, starts, i, l); }
  }

  lemma StoreStepSteps(g: Global, starts: seq<map<Key, Entry>>, i: nat, l: Label)
    requires GlobalInv(g, starts) && CanMove(g, StoreStep(i, l))
    ensures After(g, StoreStep(i, l)).stores == g.stores[i := Next(g.stores[i], l)]
    ensures StoresOk(After(g, StoreStep(i, l)), starts)
  {
    if Publishing(g.stores[i], l) { PublishMovesBudget(g, starts, i, l); }
    StoresKeepInv(g, starts, i, l);
  }

  /** What a step does to one put of its own store. */
  lemma StepBacks(g: Global, i: nat, l: Label, id: nat)
    requires Backed(g) && CanMove(g, StoreStep(i, l)) && id in Next(g.stores[i], l).flights
    ensures match Next(g.stores[i], l).flights[id]
            case Spooling(_, _, cached) => Putting(i, id) in g.held && |cached| <= g.held[Putting(i, id)]
            case Described(_, body, _) => Putting(i, id) in g.held && |body| <= g.held[Putting(i, id)]
            case Closing(_) => true
    ensures Publishing(g.stores[i], l) && id == l.region.id ==> Next(g.stores[i], l).flights[id].Closing?
  {
    if id in g.stores[i].flights { assert BackedPut(g, i, id); }
  }

  lemma HeldAfter(g: Global, i: nat, l: Label)
    requires CanMove(g, StoreStep(i, l))
    ensures After(g, StoreStep(i, l)).held
         == g.held - (if Publishing(g.stores[i], l) then {Putting(i, l.region.id)} else {})
  {
  }

  lemma OtherStoreBacked(g: Global, g': Global, i: nat, gone: set<Holder>, j: nat, id: nat)
    requires j != i && j < |g.stores| == |g'.stores| && g'.stores[j] == g.stores[j] && id in g.stores[j].flights
    requires g'.held == g.held - gone && forall h :: h in gone ==> h.Putting? && h.store == i
    requires BackedPut(g, j, id)
    ensures BackedPut(g', j, id)
  {
  }

  lemma OwnStoreBacked(g: Global, g': Global, i: nat, l: Label, id: nat)
    requires Backed(g) && CanMove(g, StoreStep(i, l)) && |g'.stores| == |g.stores|
             && g'.stores[i] == Next(g.stores[i], l)
    requires g'.held == g.held - (if Publishing(g.stores[i], l) then {Putting(i, l.region.id)} else {})
    requires id in g'.stores[i].flights
    ensures BackedPut(g', i, id)
  {
    StepBacks(g, i, l, id);
  }

  lemma BacksThrough(g: Global, g': Global, i: nat, l: Label, gone: set<Holder>)
    requires Backed(g) && CanMove(g, StoreStep(i, l)) && g'.stores == g.stores[i := Next(g.stores[i], l)]
    requires gone == if Publishing(g.stores[i], l) then {Putting(i, l.region.id)} else {}
    requires g'.held == g.held - gone
    ensures Backed(g')
  {
    forall j, id | 0 <= j < |g'.stores| && id in g'.stores[j].flights
      ensures BackedPut(g', j, id)
    {
      if j == i {
        OwnStoreBacked(g, g', i, l, id);
      } else {
        assert BackedPut(g, j, id);
        OtherStoreBacked(g, g', i, gone, j, id);
      }
    }
  }

  lemma StoreStepBacks(g: Global, starts: seq<map<Key, Entry>>, i: nat, l: Label)
    requires GlobalInv(g, starts) && CanMove(g, StoreStep(i, l))
    ensures Backed(After(g, StoreStep(i, l)))
  {
    StoreStepSteps(g, starts, i, l);
    HeldAfter(g, i, l);
    var gone := if Publishing(g.stores[i], l) then {Putting(i, l.region.id)} else {};
    BacksThrough(g, After(g, StoreStep(i, l)), i, l, gone);
  }

  // ---------------------------------------------------------------- all steps

  lemma UploadMoves(g: Global, id: nat, size: nat)
    requires Accounted(g) && Budgeted(g) && g.ledger.committed >= 0 && CanMove(g, Upload(id, size))
    ensures Accounted(After(g, Upload(id, size))) && Budgeted(After(g, Upload(id, size)))
  {
    HeldFits(g, Uploading(id));
    if size <= g.held[Uploading(id)] { CommitMovesBudget(g, Uploading(id), size, 0); }
  }

  lemma HolderMoves(g: Global, mv: Move)
    requires Accounted(g) && Budgeted(g) && g.ledger.committed >= 0 && CanMove(g, mv)
    requires mv.Reserving? || mv.Releasing?
    ensures Accounted(After(g, mv)) && Budgeted(After(g, mv))
  {
    match mv
    case Reserving(h, n, free) => if Admits(g.ledger, n, free) { ReserveKeepsBudget(g, h, n, free); }
    case Releasing(h) => HeldFits(g, h);
  }

  lemma CollectorMoves(g: Global, mv: Move)
    requires Accounted(g) && Budgeted(g) && g.pending <= g.ledger.committed as int && CanMove(g, mv)
    requires mv.Returning? || mv.Forgoing? || mv.Bypassing?
    ensures Accounted(After(g, mv)) && Budgeted(After(g, mv))
  {
  }

  lemma BudgetMoveKeeps(g: Global, starts: seq<map<Key, Entry>>, mv: Move)
    requires Accounted(g) && Budgeted(g) && StoresOk(g, starts)
    requires CanMove(g, mv) && !mv.StoreStep? && !mv.Restarting?
    ensures Accounted(After(g, mv)) && Budgeted(After(g, mv))
  {
    CommittedNonNegative(g, starts);
    if mv.Reserving? || mv.Releasing? {
      HolderMoves(g, mv);
    } else if mv.Upload? {
      UploadMoves(g, mv.id, mv.size);
    } else {
      CollectorMoves(g, mv);
    }
  }

  lemma BudgetMoveBacks(g: Global, mv: Move)
    requires Backed(g) && CanMove(g, mv) && !mv.StoreStep? && !mv.Restarting?
    ensures Backed(After(g, mv))
  {
    var g' := After(g, mv);
    forall i, id | 0 <= i < |g'.stores| && id in g'.stores[i].flights
      ensures BackedPut(g', i, id)
    {
      assert BackedPut(g, i, id);
    }
  }

  // ---------------------------------------------------------------- starts

  lemma StartIsBudgeted(stores: seq<Machine>, config: Ledger, privateBytes: nat)
    requires Limited(config)
    ensures Budgeted(StartingFrom(stores, config, privateBytes))
  {
  }

  lemma StartIsBacked(g: Global)
    requires forall i :: 0 <= i < |g.stores| ==> g.stores[i].flights == map[]
    ensures Backed(g)
  {
  }

  /** A start is accounted exactly if its sum was not stopped. */
  lemma StartAccountsIffFits(stores: seq<Machine>, config: Ledger, privateBytes: nat, starts: seq<map<Key, Entry>>)
    requires StoresOk(StartingFrom(stores, config, privateBytes), starts)
    ensures Accounted(StartingFrom(stores, config, privateBytes)) <==>
              BytesOf(stores) + privateBytes <= MAX_INT64 as int
  {
    StoresAreCounted(StartingFrom(stores, config, privateBytes), starts);
    BytesAtLeast(stores, |stores|);
  }

  /** Stores with no put in flight, under the budget a start computes for them, satisfy the invariant
      exactly if the sum of their bytes fits an int64. */
  lemma StartIsAccounted(stores: seq<Machine>, config: Ledger, privateBytes: nat, starts: seq<map<Key, Entry>>)
    requires StoresOk(StartingFrom(stores, config, privateBytes), starts) && Limited(config)
    requires forall i :: 0 <= i < |stores| ==> stores[i].flights == map[]
    ensures GlobalInv(StartingFrom(stores, config, privateBytes), starts)
            == (BytesOf(stores) + privateBytes <= MAX_INT64 as int)
  {
    StartAccountsIffFits(stores, config, privateBytes, starts);
    StartIsBudgeted(stores, config, privateBytes);
    StartIsBacked(StartingFrom(stores, config, privateBytes));
  }

  lemma StopKeepsInv(m: Machine, start: map<Key, Entry>, s: Stop)
    requires Inv(m, start) && Enabled(m, Crash(s.region, s.n))
    ensures Inv(Stopped(m, s), start) && Stopped(m, s).flights == map[]
  {
    StepKeepsInv(m, start, Crash(s.region, s.n));
  }

  lemma AllStopsKeepInv(stores: seq<Machine>, starts: seq<map<Key, Entry>>, stops: seq<Stop>)
    requires EachOk(stores, starts) && CanStop(stores, stops)
    ensures EachOk(AllStopped(stores, stops), starts)
    ensures forall i :: 0 <= i < |stores| ==> AllStopped(stores, stops)[i].flights == map[]
  {
    forall i | 0 <= i < |stores|
      ensures Inv(AllStopped(stores, stops)[i], starts[i]) && AllStopped(stores, stops)[i].flights == map[]
    {
      StopKeepsInv(stores[i], starts[i], stops[i]);
    }
  }

  lemma StopsKeepInv(g: Global, starts: seq<map<Key, Entry>>, mv: Move)
    requires StoresOk(g, starts) && mv.Restarting? && Possible(g, mv)
    ensures StoresOk(After(g, mv), starts)
    ensures forall i :: 0 <= i < |After(g, mv).stores| ==> After(g, mv).stores[i].flights == map[]
  {
    AllStopsKeepInv(g.stores, starts, mv.stops);
  }

  /** A crash of the whole process at any point of any region of every store, and the next start. */
  lemma RestartKeepsInv(g: Global, starts: seq<map<Key, Entry>>, mv: Move)
    requires StoresOk(g, starts) && Limited(g.ledger) && mv.Restarting? && Possible(g, mv)
    ensures GlobalInv(After(g, mv), starts) == Bounded(g, mv)
  {
    StopsKeepInv(g, starts, mv);
    StartIsAccounted(AllStopped(g.stores, mv.stops), g.ledger, mv.privateBytes, starts);
  }

  // ---------------------------------------------------------------- all moves

  lemma MoveKeepsInv(g: Global, starts: seq<map<Key, Entry>>, mv: Move)
    requires GlobalInv(g, starts) && CanMove(g, mv)
    ensures GlobalInv(After(g, mv), starts)
  {
    if mv.StoreStep? {
      StoreStepAccounts(g, starts, mv.i, mv.l);
      StoreStepBudgets(g, starts, mv.i, mv.l);
      StoreStepBacks(g, starts, mv.i, mv.l);
      StoreStepSteps(g, starts, mv.i, mv.l);
    } else if mv.Restarting? {
      RestartKeepsInv(g, starts, mv);
    } else {
      BudgetMoveKeeps(g, starts, mv);
      BudgetMoveBacks(g, mv);
    }
  }

  lemma PublishSaturates(g: Global, starts: seq<map<Key, Entry>>, i: nat, l: Label)
    requires GlobalInv(g, starts) && Possible(g, StoreStep(i, l)) && !Bounded(g, StoreStep(i, l))
    ensures !Accounted(After(g, StoreStep(i, l)))
  {
    var m := g.stores[i];
    StepMovesBytes(m, starts[i], l);
    BodyIsCovered(g, i, l);
    ReplacedIsCovered(g, starts, i, l);
    CoveredFits(g, i, l);
    CommittedNonNegative(g, starts);
    BytesUpdate(g.stores, i, Next(m, l));
  }

  /** Exactly the moves that push the sum past the largest int64 break the accounting: without a
      byte budget SaturatingAdd stops there, and so does the startup sum. */
  lemma MoveAccountsIffBounded(g: Global, starts: seq<map<Key, Entry>>, mv: Move)
    requires GlobalInv(g, starts) && Possible(g, mv)
    ensures Accounted(After(g, mv)) <==> Bounded(g, mv)
  {
    assert Accounted(g) && StoresOk(g, starts) && Limited(g.ledger);
    if Bounded(g, mv) {
      MoveKeepsInv(g, starts, mv);
    } else if mv.StoreStep? {
      PublishSaturates(g, starts, mv.i, mv.l);
    } else if mv.Restarting? {
      StopsKeepInv(g, starts, mv);
      StartAccountsIffFits(AllStopped(g.stores, mv.stops), g.ledger, mv.privateBytes, starts);
    }
  }

  // ---------------------------------------------------------------- runs

  ghost predicate GlobalRuns(g: Global, mvs: seq<Move>, g': Global)
    decreases mvs
  {
    if mvs == [] then g' == g else CanMove(g, mvs[0]) && GlobalRuns(After(g, mvs[0]), mvs[1..], g')
  }

  /** Global accounting. In every state of any interleaving of puts, failed puts, age collection,
      eviction, private uploads and crashes over any number of stores: the budget's committed bytes are the
      stores' counters, the uploads and what is on its way, and the reservations add up. */
  lemma {:induction false} AccountingHolds(g: Global, mvs: seq<Move>, g': Global, starts: seq<map<Key, Entry>>)
    requires GlobalInv(g, starts) && GlobalRuns(g, mvs, g')
    ensures GlobalInv(g', starts)
    ensures g'.ledger.committed as int == BytesOf(g'.stores) + g'.uploaded + g'.pending + g'.forgone
    ensures g'.ledger.reserved as int == Total(g'.held)
    decreases mvs
  {
    if mvs == [] {
      assert GlobalInv(g, starts);
    } else {
      MoveKeepsInv(g, starts, mvs[0]);
      AccountingHolds(After(g, mvs[0]), mvs[1..], g', starts);
    }
  }

  ghost function ServedBytes(stores: seq<Machine>): nat {
    if stores == [] then 0 else ViewBytes(View(stores[0].st.fs)) + ServedBytes(stores[1..])
  }

  ghost function LostBytes(stores: seq<Machine>): nat {
    if stores == [] then 0 else stores[0].lostBytes + LostBytes(stores[1..])
  }

  lemma {:induction false} CountersCoverEntries(stores: seq<Machine>)
    requires forall i :: 0 <= i < |stores| ==> Counted(stores[i])
    ensures BytesOf(stores) == ServedBytes(stores) + LostBytes(stores)
  {
    if stores != [] {
      assert Counted(stores[0]);
      CountersCoverEntries(stores[1..]);
    }
  }

  /** The budget against the entries the stores serve: above them by exactly what is in flight or was
      lost, so equal when no collection is under way and none of the two faults happened. */
  lemma BudgetCoversEntries(g: Global, starts: seq<map<Key, Entry>>)
    requires GlobalInv(g, starts)
    ensures g.ledger.committed as int
         == ServedBytes(g.stores) + g.uploaded + g.pending + g.forgone + LostBytes(g.stores)
  {
    forall i | 0 <= i < |g.stores|
      ensures Counted(g.stores[i])
    {
      InvHasCount(g.stores[i], starts[i]);
    }
    CountersCoverEntries(g.stores);
  }

  /** The bytes of all body files of all stores, and of those that are orphans. */
  ghost function BodyBytes(stores: seq<Machine>): nat {
    if stores == [] then 0 else DiskBytes(stores[0].st.fs) + BodyBytes(stores[1..])
  }

  ghost function UnreachableBytes(stores: seq<Machine>): nat {
    if stores == [] then 0 else OrphanBytes(stores[0].st.fs) + UnreachableBytes(stores[1..])
  }

  lemma {:induction false} BodiesAreServedOrOrphans(stores: seq<Machine>)
    ensures BodyBytes(stores) == ServedBytes(stores) + UnreachableBytes(stores)
  {
    if stores != [] {
      DiskIsServedAndOrphans(stores[0].st.fs);
      BodiesAreServedOrOrphans(stores[1..]);
    }
  }

  /** The budget against the disks: it counts every body file but the orphans, so that it stands
      above the disks where no store has an orphan, and below them by no more than the orphans. */
  lemma BudgetCoversDisks(g: Global, starts: seq<map<Key, Entry>>)
    requires GlobalInv(g, starts)
    ensures g.ledger.committed as int + UnreachableBytes(g.stores)
         == BodyBytes(g.stores) + g.uploaded + g.pending + g.forgone + LostBytes(g.stores)
    ensures (forall i :: 0 <= i < |g.stores| ==> OrphansOn(g.stores[i].st.fs) == {}) ==>
              g.ledger.committed as int >= BodyBytes(g.stores) + g.uploaded
  {
    BudgetCoversEntries(g, starts);
    BodiesAreServedOrOrphans(g.stores);
    if forall i :: 0 <= i < |g.stores| ==> OrphansOn(g.stores[i].st.fs) == {} {
      NothingUnreachable(g.stores);
    }
  }

  lemma {:induction false} NothingUnreachable(stores: seq<Machine>)
    requires forall i :: 0 <= i < |stores| ==> OrphansOn(stores[i].st.fs) == {}
    ensures UnreachableBytes(stores) == 0
  {
    if stores != [] {
      assert OrphansOn(stores[0].st.fs) == {};
      assert Lengths(stores[0].st.fs, {}) == map[];
      NothingUnreachable(stores[1..]);
    }
  }

  lemma InvHasCount(m: Machine, start: map<Key, Entry>)
    requires Inv(m, start)
    ensures Counted(m)
  {
    assert Steady(m, start);
  }

  // ---------------------------------------------------------------- startup

  lemma {:induction false} SumsGrow(s: seq<int>, i: nat)
    requires i <= |s| && forall j :: 0 <= j < |s| ==> s[j] >= 0
    ensures SeqSum(s[..i]) >= 0 && (i < |s| ==> SeqSum(s[..i + 1]) == SeqSum(s[..i]) + s[i])
  {
    assert forall j :: 0 <= j < i ==> s[..i][j] == s[j];
    SeqSumNonNegative(s[..i]);
    if i < |s| {
      assert s[..i + 1] == s[..i] + [s[i]];
      SeqSumConcat(s[..i], [s[i]]);
    }
  }

  /** The bytes the budget starts from: the stores' and uploads' sizes, stopped at the largest int64. */
  method StartupBytes(sizes: seq<int64>) returns (committed: int64)
    requires forall i :: 0 <= i < |sizes| ==> sizes[i] >= 0
    ensures committed as int == Capped(SeqSum(seq(|sizes|, i requires 0 <= i < |sizes| => sizes[i] as int)))
  {
    ghost var s := seq(|sizes|, i requires 0 <= i < |sizes| => sizes[i] as int);
    committed := 0;
    var i := 0;
    while i < |sizes|
      invariant i <= |sizes| && committed >= 0
      invariant committed as int == Capped(SeqSum(s[..i]))
    {
      SumsGrow(s, i);
      if sizes[i] > MAX_INT64 - committed {
        committed := MAX_INT64;
      } else {
        committed := committed + sizes[i];
      }
      i := i + 1;
    }
    assert s[..i] == s;
  }

  /** The startup loop visits the stores' counters and then the private directories. */
  function StartupSizes(stores: seq<Machine>, privates: seq<nat>): seq<int> {
    seq(|stores|, i requires 0 <= i < |stores| => stores[i].st.bytes)
    + seq(|privates|, i requires 0 <= i < |privates| => privates[i] as int)
  }

  lemma {:induction false} CountersSum(stores: seq<Machine>)
    ensures SeqSum(seq(|stores|, i requires 0 <= i < |stores| => stores[i].st.bytes)) == BytesOf(stores)
  {
    if stores != [] {
      var all := seq(|stores|, i requires 0 <= i < |stores| => stores[i].st.bytes);
      assert all[1..] == seq(|stores[1..]|, i requires 0 <= i < |stores[1..]| => stores[1..][i].st.bytes);
      CountersSum(stores[1..]);
    }
  }

  /** Its result is the budget's first committed bytes. */
  lemma StartupIsStart(stores: seq<Machine>, privates: seq<nat>, config: Ledger, privateBytes: nat,
                       starts: seq<map<Key, Entry>>)
    requires StoresOk(StartingFrom(stores, config, privateBytes), starts)
    requires SeqSum(seq(|privates|, i requires 0 <= i < |privates| => privates[i] as int)) == privateBytes
    ensures Capped(SeqSum(StartupSizes(stores, privates)))
            == StartingFrom(stores, config, privateBytes).ledger.committed as int
  {
    SeqSumConcat(seq(|stores|, i requires 0 <= i < |stores| => stores[i].st.bytes),
                 seq(|privates|, i requires 0 <= i < |privates| => privates[i] as int));
    CountersSum(stores);
    StoresAreCounted(StartingFrom(stores, config, privateBytes), starts);
    BytesAtLeast(stores, |stores|);
  }

  // ---------------------------------------------------------------- from directories on disk

  ghost function Booted(dirs: seq<FS>, drawn: seq<set<string>>): seq<Machine>
    requires |drawn| == |dirs|
  {
    seq(|dirs|, i requires 0 <= i < |dirs| => Boot(dirs[i], drawn[i]))
  }

  ghost function Views(dirs: seq<FS>): seq<map<Key, Entry>> {
    seq(|dirs|, i requires 0 <= i < |dirs| => View(dirs[i]))
  }

  ghost function ViewTotal(dirs: seq<FS>): nat {
    if dirs == [] then 0 else ViewBytes(View(dirs[0])) + ViewTotal(dirs[1..])
  }

  lemma {:induction false} BootedBytes(dirs: seq<FS>, drawn: seq<set<string>>)
    requires |drawn| == |dirs|
    ensures BytesOf(Booted(dirs, drawn)) == ViewTotal(dirs)
  {
    if dirs != [] {
      assert Booted(dirs, drawn)[1..] == Booted(dirs[1..], drawn[1..]);
      BootedBytes(dirs[1..], drawn[1..]);
    }
  }

  lemma BootedOk(dirs: seq<FS>, drawn: seq<set<string>>)
    requires |drawn| == |dirs| && forall i :: 0 <= i < |dirs| ==> Wf(dirs[i]) && PublishedOk(dirs[i], drawn[i])
    ensures EachOk(Booted(dirs, drawn), Views(dirs))
    ensures forall i :: 0 <= i < |dirs| ==> Booted(dirs, drawn)[i].flights == map[]
  {
    forall i | 0 <= i < |dirs|
      ensures Inv(Booted(dirs, drawn)[i], Views(dirs)[i])
    {
      BootHasInv(dirs[i], drawn[i]);
    }
  }

  /** From the disks to the budget: whatever directories a server opens, the budget it starts is
      accounted exactly if the bytes of their complete entries and of the uploads fit an int64. */
  lemma DisksAreAccounted(dirs: seq<FS>, drawn: seq<set<string>>, config: Ledger, privateBytes: nat)
    requires |drawn| == |dirs| && Limited(config)
    requires forall i :: 0 <= i < |dirs| ==> Wf(dirs[i]) && PublishedOk(dirs[i], drawn[i])
    ensures GlobalInv(StartingFrom(Booted(dirs, drawn), config, privateBytes), Views(dirs))
         == (ViewTotal(dirs) + privateBytes <= MAX_INT64 as int)
  {
    BootedOk(dirs, drawn);
    BootedBytes(dirs, drawn);
    StartIsAccounted(Booted(dirs, drawn), config, privateBytes, Views(dirs));
  }

  /** And stays accounted in every run, through crashes and new starts. */
  lemma DisksStayAccounted(dirs: seq<FS>, drawn: seq<set<string>>, config: Ledger, privateBytes: nat, mvs: seq<Move>,
                           g: Global)
    requires |drawn| == |dirs| && Limited(config) && ViewTotal(dirs) + privateBytes <= MAX_INT64 as int
    requires forall i :: 0 <= i < |dirs| ==> Wf(dirs[i]) && PublishedOk(dirs[i], drawn[i])
    requires GlobalRuns(StartingFrom(Booted(dirs, drawn), config, privateBytes), mvs, g)
    ensures GlobalInv(g, Views(dirs))
  {
    DisksAreAccounted(dirs, drawn, config, privateBytes);
    AccountingHolds(StartingFrom(Booted(dirs, drawn), config, privateBytes), mvs, g, Views(dirs));
  }
}
