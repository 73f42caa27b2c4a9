/** What every step of the store machine keeps, and what every run therefore guarantees. */
module StoreRuns {
  import opened Basics
  import opened FileSystem
  import opened StoreSpec
  import opened PutSpec
  import opened StoreMachine

  // ---------------------------------------------------------------- the invariant

  /** The directory shows exactly the last stored entries that were not dropped since. */
  ghost predicate Recorded(m: Machine, start: map<Key, Entry>) {
    Wf(m.st.fs) && View(m.st.fs) == Replay(start, m.history)
  }

  /** The counters are a full scan plus what replace's fallback lost. */
  ghost predicate Counted(m: Machine) {
    ByteDrift(m.st) == m.lostBytes && ObjectDrift(m.st) == m.lostObjects
  }

  /** A put's temporary files hold what it wrote to them. */
  ghost predicate FlightOk(fs: FS, g: Flight) {
    match g
    case Spooling(key, s, cached) =>
      '/' !in key && '/' !in s && At(fs, BodyTemp(s)) == Some(Bytes(cached))
    case Described(job, body, written) =>
      && '/' !in job.key && '/' !in job.bodySuffix
      && At(fs, job.BodyFile()) == Some(Bytes(body))
      && At(fs, job.Meta()) == Some(if written then Json(job.meta) else Bytes([]))
      && job.meta.bodyFile == GenerationName(job.key, job.bodySuffix) && job.meta.contentBytes == |body|
    case Closing(temps) =>
      && temps != [] && (forall p :: p in temps ==> p.IsTemp())
      && forall i, j :: 0 <= i < j < |temps| ==> temps[i] != temps[j]
  }

  ghost predicate Flying(fs: FS, flights: map<nat, Flight>) {
    forall id :: id in flights ==> FlightOk(fs, flights[id])
  }

  /** The names in use are exactly those the puts hold, and no two puts hold the same. */
  ghost predicate Owned(active: set<Path>, flights: map<nat, Flight>) {
    && (forall id :: id in flights ==> flights[id].Holds() <= active)
    && (forall p :: p in active ==> exists id :: id in flights && p in flights[id].Holds())
    && (forall i, j :: i in flights && j in flights && i != j ==> flights[i].Holds() !! flights[j].Holds())
  }

  /** Suffixes still to be published were drawn but never published. */
  ghost predicate Fresh(m: Machine) {
    && m.published <= m.used
    && (forall id :: id in m.flights ==> m.flights[id].Suffixes() !! m.published && m.flights[id].Suffixes() <= m.used)
    && (forall p :: p in m.st.active && p.BodyTemp? ==> p.suffix in m.used)
  }

  function NamedSuffix(fs: FS, k: Key): Option<string> {
    match PreviousOf(fs, k).path case Some(Generation(_, s)) => Some(s) case _ => None
  }

  /** Every generation on disk or named by metadata was published. */
  ghost predicate PublishedOk(fs: FS, published: set<string>) {
    && (forall p :: p in fs.names && p.Generation? ==> p.suffix in published)
    && (forall k :: NamedSuffix(fs, k).Some? ==> NamedSuffix(fs, k).value in published)
  }

  /** A sighted generation either still has the sighted body and metadata, or is gone for good. */
  ghost predicate Remembered(fs: FS, x: Sighting, published: set<string>) {
    var c, e := x.candidate, x.entry;
    && BodyPath(c.key, e.meta) == Some(c.bodyPath) && c.bytes == |e.body| == e.meta.contentBytes
    && (c.bodyPath.Generation? ==> c.bodyPath.suffix in published)
    && (c.bodyPath in fs.names ==> At(fs, c.bodyPath) == Some(Bytes(e.body)))
    && (forall meta :: At(fs, MetaFile(c.key)) == Some(Json(meta)) && BodyPath(c.key, meta) == Some(c.bodyPath) ==>
          meta == e.meta)
  }

  ghost predicate AllRemembered(fs: FS, seen: set<Sighting>, published: set<string>) {
    forall x :: x in seen ==> Remembered(fs, x, published)
  }

  /** Temporary files on disk belong to a put in flight, or were left behind. */
  ghost predicate TempsTracked(fs: FS, active: set<Path>, leftover: set<Path>) {
    TempNames(fs) <= active + leftover
  }

  /** Only whole entries that some put prepared are ever stored. */
  ghost predicate Genuine(m: Machine) {
    && (forall e :: e in m.history && e.Stored? ==> e in m.offered)
    && (forall id :: id in m.flights && m.flights[id].Described? ==>
          Stored(m.flights[id].job.key, Entry(m.flights[id].job.meta, m.flights[id].body)) in m.offered)
  }

  /** The parts of the invariant that no work on a temporary file can touch. */
  ghost predicate Steady(m: Machine, start: map<Key, Entry>) {
    Recorded(m, start) && Counted(m) && PublishedOk(m.st.fs, m.published) && AllRemembered(m.st.fs, m.seen, m.published)
  }

  /** The parts of the invariant about puts in flight and their temporary files. */
  ghost predicate Airborne(m: Machine) {
    Flying(m.st.fs, m.flights) && Owned(m.st.active, m.flights) && TempsTracked(m.st.fs, m.st.active, m.leftover)
  }

  ghost predicate Inv(m: Machine, start: map<Key, Entry>) {
    Steady(m, start) && Airborne(m) && Fresh(m) && Genuine(m)
  }

  // ---------------------------------------------------------------- steps on one temporary file

  lemma NamedIffContent(fs: FS, p: Path)
    requires Wf(fs)
    ensures p in fs.names <==> At(fs, p).Some?
  {
  }

  /** Nothing but temporary file t differs. */
  ghost predicate Beside(a: FS, b: FS, t: Path) {
    Wf(a) && Wf(b) && t.IsTemp() && forall p :: p != t ==> At(b, p) == At(a, p)
  }

  lemma TempStep(fs: FS, a: Action, t: Path)
    requires Wf(fs) && Legal(fs, a) && t.IsTemp()
    requires a == Unlink(t) || (a.Create? && a.path == t) || (a.Append? && a.path == t) || (a.Encode? && a.path == t)
    ensures Beside(fs, Do(fs, a), t)
    ensures At(Do(fs, a), t) == Effect(fs, a, t)
  {
    DoEffect(fs, a);
  }

  lemma BesideKeepsPublished(a: FS, b: FS, t: Path, published: set<string>)
    requires Beside(a, b, t) && PublishedOk(a, published)
    ensures PublishedOk(b, published)
  {
    forall p | p in b.names && p.Generation?
      ensures p.suffix in published
    {
      NamedIffContent(a, p);
      NamedIffContent(b, p);
    }
    forall k | NamedSuffix(b, k).Some?
      ensures NamedSuffix(b, k).value in published
    {
      SamePrevious(a, b, k);
      assert NamedSuffix(a, k) == NamedSuffix(b, k);
    }
  }

  lemma BesideKeepsSightings(a: FS, b: FS, t: Path, seen: set<Sighting>, published: set<string>)
    requires Beside(a, b, t) && AllRemembered(a, seen, published)
    ensures AllRemembered(b, seen, published)
  {
    forall x | x in seen
      ensures Remembered(b, x, published)
    {
      NamedIffContent(a, x.candidate.bodyPath);
      NamedIffContent(b, x.candidate.bodyPath);
    }
  }

  lemma BesideKeepsFlight(a: FS, b: FS, t: Path, g: Flight)
    requires Beside(a, b, t) && FlightOk(a, g) && t !in g.Holds()
    ensures FlightOk(b, g)
  {
  }

  /** A step on a temporary file that only put id may hold leaves the other puts alone. */
  lemma BesideKeepsFlying(a: FS, b: FS, t: Path, active: set<Path>, flights: map<nat, Flight>, id: nat, g: Flight)
    requires Beside(a, b, t) && Flying(a, flights) && FlightOk(b, g)
    requires Owned(active, flights) && (t in active ==> id in flights && t in flights[id].Holds())
    ensures Flying(b, flights[id := g])
  {
    forall j | j in flights && j != id
      ensures FlightOk(b, flights[j])
    {
      BesideKeepsFlight(a, b, t, flights[j]);
    }
  }

  lemma BesideKeepsTemps(a: FS, b: FS, t: Path, active: set<Path>, leftover: set<Path>)
    requires Beside(a, b, t) && TempsTracked(a, active, leftover)
    ensures TempsTracked(b, active + {t}, leftover)
    ensures t !in b.names || t in leftover ==> TempsTracked(b, active - {t}, leftover)
  {
    forall p | p in TempNames(b) && p != t
      ensures p in TempNames(a)
    {
      NamedIffContent(a, p);
      NamedIffContent(b, p);
    }
  }

  // ---------------------------------------------------------------- regions

  predicate InVocabulary(a: Action, c: Change) {
    match a
    case Rename(p, q) =>
      && c.put.Some?
      && ((p == c.put.value.BodyFile() && q == c.put.value.Target())
          || (p == c.put.value.Meta() && q == MetaFile(c.key)))
    case Unlink(p) => !p.IsTemp() && p.key == c.key
    case Chtimes(p, _) => p.IsBody()
    case _ => false
  }

  /** What a region may have done to one name, at any point. */
  ghost predicate WithinAt(a: FS, b: FS, c: Change, p: Path) {
    || At(b, p) == At(a, p)
    || (At(b, p).None? && !p.IsTemp() && p.key == c.key)
    || (At(b, p).None? && c.put.Some? && (p == c.put.value.BodyFile() || p == c.put.value.Meta()))
    || (c.put.Some? && p == c.put.value.Target() && At(b, p) == Some(Bytes(c.body)))
    || (c.put.Some? && p == MetaFile(c.key) && At(b, p) == Some(Json(c.put.value.meta)))
  }

  ghost predicate Within(a: FS, b: FS, c: Change) {
    Wf(a) && Wf(b) && forall p :: WithinAt(a, b, c, p)
  }

  ghost predicate ChangeOk(fs: FS, c: Change) {
    c.put.Some? ==>
      && c.put.value.key == c.key
      && At(fs, c.put.value.BodyFile()) == Some(Bytes(c.body))
      && At(fs, c.put.value.Meta()) == Some(Json(c.put.value.meta))
  }

  lemma VocabularyStaysWithin(a: FS, b: FS, c: Change, act: Action)
    requires Within(a, b, c) && ChangeOk(a, c) && InVocabulary(act, c)
    ensures Within(a, Do(b, act), c)
  {
    DoEffect(b, act);
    forall p
      ensures WithinAt(a, Do(b, act), c, p)
    {
      assert WithinAt(a, b, c, p);
      if act.Rename? {
        assert WithinAt(a, b, c, act.from);
        NamedIffContent(b, act.from);
      }
    }
  }

  lemma {:induction false} RunStaysWithin(a: FS, b: FS, c: Change, acts: seq<Action>)
    requires Within(a, b, c) && ChangeOk(a, c) && forall i :: 0 <= i < |acts| ==> InVocabulary(acts[i], c)
    ensures Within(a, Run(b, acts), c)
    decreases acts
  {
    if acts != [] {
      VocabularyStaysWithin(a, b, c, acts[0]);
      RunStaysWithin(a, Do(b, acts[0]), c, acts[1..]);
    }
  }

  lemma RegionVocabulary(m: Machine, r: Region)
    requires RegionEnabled(m, r)
    ensures var acts := RegionActs(m, r);
            forall i :: 0 <= i < |acts| ==> InVocabulary(acts[i], ChangeOf(m, r))
  {
  }

  /** What a region may publish, as the invariant sees it. */
  ghost predicate PutOk(c: Change, before: set<string>, after: set<string>) {
    && before <= after
    && (c.put.Some? ==>
          && c.put.value.bodySuffix !in before && c.put.value.bodySuffix in after
          && BodyPath(c.key, c.put.value.meta) == Some(c.put.value.Target()) && c.put.value.key == c.key)
  }

  lemma WithinKeepsPublished(a: FS, b: FS, c: Change, before: set<string>, after: set<string>)
    requires Within(a, b, c) && PublishedOk(a, before) && PutOk(c, before, after)
    ensures PublishedOk(b, after)
  {
    forall p | p in b.names && p.Generation?
      ensures p.suffix in after
    {
      assert WithinAt(a, b, c, p);
      NamedIffContent(a, p);
      NamedIffContent(b, p);
    }
    forall k | NamedSuffix(b, k).Some?
      ensures NamedSuffix(b, k).value in after
    {
      assert WithinAt(a, b, c, MetaFile(k));
      NameDependsOnMeta(a, b, k);
    }
  }

  lemma NameDependsOnMeta(a: FS, b: FS, k: Key)
    ensures At(b, MetaFile(k)) == At(a, MetaFile(k)) ==> NamedSuffix(b, k) == NamedSuffix(a, k)
  {
  }

  lemma WithinKeepsSighting(a: FS, b: FS, c: Change, x: Sighting, before: set<string>, after: set<string>)
    requires Within(a, b, c) && PutOk(c, before, after) && Remembered(a, x, before)
    ensures Remembered(b, x, after)
  {
    assert WithinAt(a, b, c, x.candidate.bodyPath);
    assert WithinAt(a, b, c, MetaFile(x.candidate.key));
    NamedIffContent(a, x.candidate.bodyPath);
    NamedIffContent(b, x.candidate.bodyPath);
  }

  lemma WithinKeepsSightings(a: FS, b: FS, c: Change, seen: set<Sighting>, before: set<string>, after: set<string>)
    requires Within(a, b, c) && PutOk(c, before, after) && AllRemembered(a, seen, before)
    ensures AllRemembered(b, seen, after)
  {
    forall x | x in seen
      ensures Remembered(b, x, after)
    {
      WithinKeepsSighting(a, b, c, x, before, after);
    }
  }

  lemma WithinKeepsFlight(a: FS, b: FS, c: Change, g: Flight)
    requires Within(a, b, c) && FlightOk(a, g)
    requires c.put.Some? ==> c.put.value.BodyFile() !in g.Holds() && c.put.value.Meta() !in g.Holds()
    ensures FlightOk(b, g)
  {
    match g
    case Spooling(_, s, _) => assert WithinAt(a, b, c, BodyTemp(s));
    case Described(job, _, _) =>
      assert WithinAt(a, b, c, job.BodyFile());
      assert WithinAt(a, b, c, job.Meta());
    case Closing(_) =>
  }

  lemma WithinKeepsTemps(a: FS, b: FS, c: Change)
    requires Within(a, b, c)
    ensures TempNames(b) <= TempNames(a)
  {
    forall p | p in TempNames(b)
      ensures p in TempNames(a)
    {
      assert WithinAt(a, b, c, p);
      NamedIffContent(a, p);
      NamedIffContent(b, p);
    }
  }

  lemma WithinChangesOneKey(a: FS, b: FS, c: Change)
    requires Within(a, b, c) && (c.put.Some? ==> c.put.value.key == c.key)
    ensures Get(b, c.key).Some? ==> View(b) == View(a)[c.key := Get(b, c.key).value]
    ensures Get(b, c.key).None? ==> View(b) == View(a) - {c.key}
    ensures Get(b, c.key) == Get(a, c.key) ==> View(b) == View(a)
  {
    forall p: Path | !p.IsTemp() && p.key != c.key
      ensures At(a, p) == At(b, p)
    {
      assert WithinAt(a, b, c, p);
    }
    ViewChange(a, b, c.key);
  }

  /** A put that wrote both temporary files is ready to commit. */
  lemma WrittenIsReady(m: Machine, start: map<Key, Entry>, id: nat)
    requires Inv(m, start) && id in m.flights && m.flights[id].Described? && m.flights[id].written
    ensures Ready(m.st.fs, m.flights[id].job, m.flights[id].body)
    ensures m.flights[id].job.bodySuffix !in m.published
  {
    var g := m.flights[id];
    assert g.job.bodySuffix in g.Suffixes();
    assert NamedSuffix(m.st.fs, g.job.key) != Some(g.job.bodySuffix);
  }

  /** The change a region makes, seen from every point of its run. */
  lemma RegionStaysWithin(m: Machine, start: map<Key, Entry>, r: Region, n: nat)
    requires Inv(m, start) && RegionEnabled(m, r) && n <= |RegionActs(m, r)|
    ensures ChangeOk(m.st.fs, ChangeOf(m, r))
    ensures PutOk(ChangeOf(m, r), m.published, m.published + Publishes(m, r))
    ensures Within(m.st.fs, Run(m.st.fs, RegionActs(m, r)[..n]), ChangeOf(m, r))
  {
    var c, acts := ChangeOf(m, r), RegionActs(m, r);
    if r.Committing? {
      WrittenIsReady(m, start, r.id);
      GenerationRoundTrip(c.key, c.put.value.bodySuffix, c.put.value.meta);
    }
    RegionVocabulary(m, r);
    assert forall p :: WithinAt(m.st.fs, m.st.fs, c, p);
    RunStaysWithin(m.st.fs, m.st.fs, c, acts[..n]);
  }

  lemma RegionRuns(m: Machine, r: Region)
    requires RegionEnabled(m, r)
    ensures RegionState(m, r).fs == Run(m.st.fs, RegionActs(m, r)[..|RegionActs(m, r)|])
    ensures RegionState(m, r).active == m.st.active
  {
    assert RegionActs(m, r)[..|RegionActs(m, r)|] == RegionActs(m, r);
  }

  lemma SteadyFromParts(m: Machine, start: map<Key, Entry>)
    requires Recorded(m, start) && Counted(m)
    requires PublishedOk(m.st.fs, m.published) && AllRemembered(m.st.fs, m.seen, m.published)
    ensures Steady(m, start)
  {
  }

  // ---------------------------------------------------------------- completed regions

  /** The events account for the change of the view. */
  ghost predicate Explains(v: map<Key, Entry>, events: seq<Event>, w: map<Key, Entry>) {
    |events| <= 1 && w == if events == [] then v else Apply(v, events[0])
  }

  lemma ReplayEvents(start: map<Key, Entry>, h: seq<Event>, events: seq<Event>, w: map<Key, Entry>)
    requires Explains(Replay(start, h), events, w)
    ensures Replay(start, h + events) == w
  {
    if events == [] {
      assert h + events == h;
    } else {
      ReplayStep(start, h, events[0]);
      assert h + events == h + [events[0]];
    }
  }

  /** The events of a commit, and the view they explain. */
  lemma CommitEventsExplain(v: map<Key, Entry>, w: map<Key, Entry>, key: Key, entry: Entry, ok: bool, loses: bool)
    requires w == if ok then v[key := entry] else if loses then v - {key} else v
    ensures Explains(v, if ok then [Stored(key, entry)] else if loses && key in v then [Dropped(key)] else [], w)
  {
    DropAbsent(v, key);
  }

  function CommitEvents(fs: FS, job: PutJob, body: seq<Byte>, f: CommitFaults): seq<Event> {
    if CommitOk(fs, job, f) then [Stored(job.key, Entry(job.meta, body))]
    else if Loses(fs, job, f) then [Dropped(job.key)] else []
  }

  lemma CommitShows(fs: FS, fs': FS, job: PutJob, body: seq<Byte>, f: CommitFaults)
    requires Ready(fs, job, body) && !f.refused && fs' == Run(fs, CommitActs(fs, job, f))
    ensures Explains(View(fs), CommitEvents(fs, job, body, f), View(fs'))
  {
    CommitIsAtomic(fs, job, body, f);
    UnrefusedView(fs, job, body, f);
    PreviousIsEntry(fs, job.key);
    CommitEventsExplain(View(fs), View(fs'), job.key, Entry(job.meta, body), CommitOk(fs, job, f), FallbackLoses(f));
  }

  lemma CommitExplained(m: Machine, start: map<Key, Entry>, id: nat, f: CommitFaults)
    requires Inv(m, start) && RegionEnabled(m, Committing(id, f))
    ensures var r := Committing(id, f);
            Explains(View(m.st.fs), RegionEvents(m, r), View(RegionState(m, r).fs))
  {
    var job, body := m.flights[id].job, m.flights[id].body;
    WrittenIsReady(m, start, id);
    CommitShows(m.st.fs, RegionState(m, Committing(id, f)).fs, job, body, f);
  }

  lemma CountsAfterLoss(m: Machine, m': Machine, lost: bool, bytes: nat)
    requires Counted(m)
    requires ByteDrift(m'.st) == ByteDrift(m.st) + (if lost then bytes else 0)
    requires ObjectDrift(m'.st) == ObjectDrift(m.st) + (if lost then 1 else 0)
    requires m'.lostBytes == m.lostBytes + (if lost then bytes else 0)
    requires m'.lostObjects == m.lostObjects + (if lost then 1 else 0)
    ensures Counted(m')
  {
  }

  lemma CommitCounts(m: Machine, id: nat, f: CommitFaults)
    requires Counted(m) && RegionEnabled(m, Committing(id, f))
    requires Ready(m.st.fs, m.flights[id].job, m.flights[id].body)
    ensures Counted(Finished(m, Committing(id, f)))
  {
    var job := m.flights[id].job;
    CommitKeepsCounters(m.st, job, m.flights[id].body, f);
    PreviousIsEntry(m.st.fs, job.key);
    CountsAfterLoss(m, Finished(m, Committing(id, f)), Loses(m.st.fs, job, f), PreviousOf(m.st.fs, job.key).bytes);
  }

  lemma SightingIsTruthful(m: Machine, start: map<Key, Entry>, c: Candidate)
    requires Inv(m, start) && exists x :: x in m.seen && x.candidate == c
    ensures Truthful(m.st.fs, c)
  {
    var x :| x in m.seen && x.candidate == c;
    assert Remembered(m.st.fs, x, m.published);
    NamedIffContent(m.st.fs, c.bodyPath);
  }

  lemma EvictExplained(m: Machine, c: Candidate, bodyFails: bool, metaFails: bool)
    requires Wf(m.st.fs) && Truthful(m.st.fs, c) && RegionEnabled(m, Evicting(c, bodyFails, metaFails))
    ensures var r := Evicting(c, bodyFails, metaFails);
            Explains(View(m.st.fs), RegionEvents(m, r), View(RegionState(m, r).fs))
  {
    RemoveOnlyNamedGeneration(m.st.fs, c, bodyFails, metaFails);
  }

  lemma EvictCounts(m: Machine, c: Candidate, bodyFails: bool, metaFails: bool)
    requires Wf(m.st.fs) && Truthful(m.st.fs, c) && RegionEnabled(m, Evicting(c, bodyFails, metaFails)) && Counted(m)
    ensures Counted(Finished(m, Evicting(c, bodyFails, metaFails)))
  {
    RemoveKeepsCounters(m.st, c, bodyFails, metaFails);
  }

  lemma CollectExplained(m: Machine, k: Key, cutoff: int, bodyFails: bool, metaFails: bool)
    requires Wf(m.st.fs)
    ensures var r := Collecting(k, cutoff, bodyFails, metaFails);
            Explains(View(m.st.fs), RegionEvents(m, r), View(RegionState(m, r).fs))
  {
    CollectIsAtomic(m.st.fs, k, cutoff, bodyFails, metaFails);
  }

  lemma CollectCounts(m: Machine, k: Key, cutoff: int, bodyFails: bool, metaFails: bool)
    requires Wf(m.st.fs) && Counted(m)
    ensures Counted(Finished(m, Collecting(k, cutoff, bodyFails, metaFails)))
  {
    CollectKeepsCounters(m.st, k, cutoff, bodyFails, metaFails);
  }

  lemma FinishRecords(m: Machine, start: map<Key, Entry>, r: Region)
    requires Inv(m, start) && RegionEnabled(m, r)
    ensures Recorded(Finished(m, r), start)
    ensures Counted(Finished(m, r))
  {
    RegionRuns(m, r);
    RegionStaysWithin(m, start, r, |RegionActs(m, r)|);
    match r {
      case Idle =>
      case Committing(id, f) => CommitExplained(m, start, id, f); WrittenIsReady(m, start, id); CommitCounts(m, id, f);
      case Evicting(c, bodyFails, metaFails) =>
        SightingIsTruthful(m, start, c);
        EvictExplained(m, c, bodyFails, metaFails);
        EvictCounts(m, c, bodyFails, metaFails);
      case Collecting(k, cutoff, bodyFails, metaFails) =>
        CollectExplained(m, k, cutoff, bodyFails, metaFails);
        CollectCounts(m, k, cutoff, bodyFails, metaFails);
    }
    ReplayEvents(start, m.history, RegionEvents(m, r), View(RegionState(m, r).fs));
  }

  function HeldBy(flights: map<nat, Flight>, id: nat): set<Path> { if id in flights then flights[id].Holds() else {} }

  lemma HoldersRemain(active: set<Path>, flights: map<nat, Flight>, id: nat, flights': map<nat, Flight>,
                      held: set<Path>)
    requires Owned(active, flights) && flights' - {id} == flights - {id} && HeldBy(flights', id) == held
    ensures forall p :: p in active - HeldBy(flights, id) + held ==>
              exists j :: j in flights' && p in flights'[j].Holds()
  {
    forall p | p in active - HeldBy(flights, id) + held
      ensures exists j :: j in flights' && p in flights'[j].Holds()
    {
      if p in held {
        assert p in flights'[id].Holds();
      } else {
        var j :| j in flights && p in flights[j].Holds();
        assert j in (flights - {id}) && j in flights' && flights'[j] == (flights' - {id})[j];
      }
    }
  }

  lemma OwnedUpdate(active: set<Path>, flights: map<nat, Flight>, id: nat, g: Flight)
    requires Owned(active, flights) && g.Holds() !! active - HeldBy(flights, id)
    ensures Owned(active - HeldBy(flights, id) + g.Holds(), flights[id := g])
  {
    assert flights[id := g] - {id} == flights - {id};
    HoldersRemain(active, flights, id, flights[id := g], g.Holds());
  }

  lemma ClosingHolds(g: Flight)
    requires !g.Closing?
    ensures Closing(Unwinding(g)).Holds() == g.Holds()
  {
  }

  lemma CommitKeepsOwned(m: Machine, id: nat)
    requires Owned(m.st.active, m.flights) && id in m.flights && !m.flights[id].Closing?
    ensures Owned(m.st.active, m.flights[id := Closing(Unwinding(m.flights[id]))])
  {
    ClosingHolds(m.flights[id]);
    OwnedUpdate(m.st.active, m.flights, id, Closing(Unwinding(m.flights[id])));
    assert m.st.active - m.flights[id].Holds() + m.flights[id].Holds() == m.st.active;
  }

  lemma OtherPutsKeep(m: Machine, r: Region, id: nat)
    requires Flying(m.st.fs, m.flights) && Owned(m.st.active, m.flights) && RegionEnabled(m, r)
    requires Within(m.st.fs, RegionState(m, r).fs, ChangeOf(m, r))
    requires id in m.flights && !(r.Committing? && id == r.id)
    ensures FlightOk(RegionState(m, r).fs, m.flights[id])
  {
    if r.Committing? { assert m.flights[id].Holds() !! m.flights[r.id].Holds(); }
    WithinKeepsFlight(m.st.fs, RegionState(m, r).fs, ChangeOf(m, r), m.flights[id]);
  }

  lemma ClosingIsOk(fs: FS, g: Flight)
    requires !g.Closing?
    ensures FlightOk(fs, Closing(Unwinding(g)))
  {
  }

  lemma FinishKeepsFlights(m: Machine, r: Region)
    requires Flying(m.st.fs, m.flights) && Owned(m.st.active, m.flights) && RegionEnabled(m, r)
    requires Within(m.st.fs, RegionState(m, r).fs, ChangeOf(m, r))
    ensures Flying(RegionState(m, r).fs, Finished(m, r).flights)
  {
    var flights', fs' := Finished(m, r).flights, RegionState(m, r).fs;
    forall id | id in flights'
      ensures FlightOk(fs', flights'[id])
    {
      if r.Committing? && id == r.id { ClosingIsOk(fs', m.flights[id]); } else { OtherPutsKeep(m, r, id); }
    }
  }

  /** No other put still holds the suffix a commit publishes. */
  lemma SuffixIsOwn(active: set<Path>, flights: map<nat, Flight>, i: nat, j: nat)
    requires Owned(active, flights) && i in flights && j in flights && i != j && flights[j].Described?
    ensures flights[j].job.bodySuffix !in flights[i].Suffixes()
  {
    assert flights[i].Holds() !! flights[j].Holds();
    assert BodyTemp(flights[j].job.bodySuffix) in flights[j].Holds();
  }

  lemma FinishKeepsFresh(m: Machine, r: Region)
    requires Fresh(m) && Owned(m.st.active, m.flights) && RegionEnabled(m, r)
    requires RegionState(m, r).active == m.st.active
    ensures Fresh(Finished(m, r))
  {
    var m' := Finished(m, r);
    if r.Committing? { assert m.flights[r.id].job.bodySuffix in m.flights[r.id].Suffixes(); }
    forall id | id in m'.flights
      ensures m'.flights[id].Suffixes() !! m'.published && m'.flights[id].Suffixes() <= m'.used
    {
      if r.Committing? && id != r.id { SuffixIsOwn(m.st.active, m.flights, id, r.id); }
    }
  }

  lemma FinishKeepsGenuine(m: Machine, r: Region)
    requires Genuine(m) && RegionEnabled(m, r)
    ensures Genuine(Finished(m, r))
  {
  }

  lemma FinishSettles(m: Machine, start: map<Key, Entry>, r: Region)
    requires Inv(m, start) && RegionEnabled(m, r)
    ensures Steady(Finished(m, r), start)
  {
    var m' := Finished(m, r);
    FinishRecords(m, start, r);
    RegionRuns(m, r);
    RegionStaysWithin(m, start, r, |RegionActs(m, r)|);
    WithinKeepsPublished(m.st.fs, m'.st.fs, ChangeOf(m, r), m.published, m'.published);
    WithinKeepsSightings(m.st.fs, m'.st.fs, ChangeOf(m, r), m.seen, m.published, m'.published);
    SteadyFromParts(m', start);
  }

  lemma FinishLands(m: Machine, start: map<Key, Entry>, r: Region)
    requires Inv(m, start) && RegionEnabled(m, r)
    ensures Airborne(Finished(m, r))
  {
    RegionRuns(m, r);
    RegionStaysWithin(m, start, r, |RegionActs(m, r)|);
    FinishKeepsFlights(m, r);
    if r.Committing? { CommitKeepsOwned(m, r.id); }
    WithinKeepsTemps(m.st.fs, Finished(m, r).st.fs, ChangeOf(m, r));
  }

  lemma FinishKeepsInv(m: Machine, start: map<Key, Entry>, r: Region)
    requires Inv(m, start) && RegionEnabled(m, r)
    ensures Inv(Finished(m, r), start)
  {
    RegionRuns(m, r);
    FinishSettles(m, start, r);
    FinishLands(m, start, r);
    FinishKeepsFresh(m, r);
    FinishKeepsGenuine(m, r);
  }

  // ---------------------------------------------------------------- crashes

  lemma CrashViews(m: Machine, start: map<Key, Entry>, r: Region, n: nat)
    requires Inv(m, start) && RegionEnabled(m, r) && n <= |RegionActs(m, r)|
    ensures var c, v := ChangeOf(m, r), View(m.st.fs);
            View(Run(m.st.fs, RegionActs(m, r)[..n]))
              in {v, v - {c.key}} + (if c.put.Some? then {Published(v, c.put.value, c.body)} else {})
  {
    var v := View(m.st.fs);
    match r
    case Idle =>
    case Committing(id, f) =>
      var job, body := m.flights[id].job, m.flights[id].body;
      WrittenIsReady(m, start, id);
      CommitIsAtomic(m.st.fs, job, body, f);
      ThroughPrefix(m.st.fs, CommitActs(m.st.fs, job, f), CommitViews(v, job, body, f), n);
    case Evicting(c, bodyFails, metaFails) =>
      SightingIsTruthful(m, start, c);
      RemoveOnlyNamedGeneration(m.st.fs, c, bodyFails, metaFails);
      ThroughPrefix(m.st.fs, RemoveActs(m.st.fs, c, bodyFails, metaFails), {v, v - {c.key}}, n);
    case Collecting(k, cutoff, bodyFails, metaFails) =>
      CollectIsAtomic(m.st.fs, k, cutoff, bodyFails, metaFails);
      ThroughPrefix(m.st.fs, CollectActs(m.st.fs, k, cutoff, bodyFails, metaFails), {v, v - {k}}, n);
  }

  lemma PublishedGet(v: map<Key, Entry>, w: map<Key, Entry>, c: Change)
    requires w in {v, v - {c.key}} + (if c.put.Some? then {Published(v, c.put.value, c.body)} else {})
    requires c.put.Some? ==> c.put.value.key == c.key
    ensures c.key in w ==> (c.key in v && w[c.key] == v[c.key])
                           || (c.put.Some? && w[c.key] == Entry(c.put.value.meta, c.body))
  {
  }

  /** What a crash leaves under the region's key: the old entry, the new entry, or nothing. */
  lemma CrashIsAtomic(m: Machine, start: map<Key, Entry>, r: Region, n: nat)
    requires Inv(m, start) && RegionEnabled(m, r) && n <= |RegionActs(m, r)|
    ensures var c, fs' := ChangeOf(m, r), Run(m.st.fs, RegionActs(m, r)[..n]);
            || Get(fs', c.key) == None
            || Get(fs', c.key) == Get(m.st.fs, c.key)
            || (c.put.Some? && Get(fs', c.key) == Some(Entry(c.put.value.meta, c.body)))
  {
    var c, fs' := ChangeOf(m, r), Run(m.st.fs, RegionActs(m, r)[..n]);
    CrashViews(m, start, r, n);
    PublishedGet(View(m.st.fs), View(fs'), c);
    ViewIsGet(m.st.fs, c.key);
    ViewIsGet(fs', c.key);
  }

  lemma CrashExplained(before: FS, after: FS, c: Change)
    requires Within(before, after, c) && (c.put.Some? ==> c.put.value.key == c.key)
    ensures Explains(View(before), CrashEvents(before, after, c.key), View(after))
  {
    WithinChangesOneKey(before, after, c);
  }

  lemma CrashRecords(m: Machine, start: map<Key, Entry>, r: Region, n: nat)
    requires Inv(m, start) && RegionEnabled(m, r) && n <= |RegionActs(m, r)|
    ensures Recorded(Restarted(m, r, n), start)
  {
    var c, fs' := ChangeOf(m, r), Run(m.st.fs, RegionActs(m, r)[..n]);
    RegionStaysWithin(m, start, r, n);
    CrashExplained(m.st.fs, fs', c);
    ReplayEvents(start, m.history, CrashEvents(m.st.fs, fs', c.key), View(fs'));
  }

  lemma CrashPublishes(m: Machine, start: map<Key, Entry>, r: Region, n: nat)
    requires Inv(m, start) && RegionEnabled(m, r) && n <= |RegionActs(m, r)|
    ensures PublishedOk(Restarted(m, r, n).st.fs, Restarted(m, r, n).published)
  {
    var c, fs' := ChangeOf(m, r), Run(m.st.fs, RegionActs(m, r)[..n]);
    RegionStaysWithin(m, start, r, n);
    WithinKeepsPublished(m.st.fs, fs', c, m.published, m.published + Publishes(m, r));
  }

  lemma CrashGenuine(m: Machine, start: map<Key, Entry>, r: Region, n: nat)
    requires Inv(m, start) && RegionEnabled(m, r) && n <= |RegionActs(m, r)|
    ensures Genuine(Restarted(m, r, n))
  {
    CrashIsAtomic(m, start, r, n);
  }

  /** New's scan makes the counters exact again. */
  lemma RestartCounts(m: Machine, r: Region, n: nat)
    requires RegionEnabled(m, r) && n <= |RegionActs(m, r)|
    ensures var m' := Restarted(m, r, n);
            Counted(m') && AllRemembered(m'.st.fs, m'.seen, m'.published)
  {
  }

  lemma CrashSettles(m: Machine, start: map<Key, Entry>, r: Region, n: nat)
    requires Inv(m, start) && RegionEnabled(m, r) && n <= |RegionActs(m, r)|
    ensures Steady(Restarted(m, r, n), start)
  {
    var m' := Restarted(m, r, n);
    CrashRecords(m, start, r, n);
    CrashPublishes(m, start, r, n);
    RestartCounts(m, r, n);
    SteadyFromParts(m', start);
  }

  lemma CrashGrounds(m: Machine, r: Region, n: nat)
    requires Fresh(m) && RegionEnabled(m, r) && n <= |RegionActs(m, r)|
    ensures Airborne(Restarted(m, r, n)) && Fresh(Restarted(m, r, n))
  {
    if r.Committing? { assert m.flights[r.id].job.bodySuffix in m.flights[r.id].Suffixes(); }
  }

  lemma CrashKeepsInv(m: Machine, start: map<Key, Entry>, r: Region, n: nat)
    requires Inv(m, start) && RegionEnabled(m, r) && n <= |RegionActs(m, r)|
    ensures Inv(Restarted(m, r, n), start)
  {
    CrashSettles(m, start, r, n);
    CrashGrounds(m, r, n);
    CrashGenuine(m, start, r, n);
  }

  // ---------------------------------------------------------------- single syscalls on temporary files

  lemma BesideSameView(a: FS, b: FS, t: Path)
    requires Beside(a, b, t)
    ensures View(a) == View(b) && Wf(b)
  {
    SameView(a, b);
  }

  lemma SameViewKeepsRecorded(m: Machine, m': Machine, start: map<Key, Entry>)
    requires Recorded(m, start) && Counted(m) && Wf(m'.st.fs) && View(m'.st.fs) == View(m.st.fs)
    requires m'.history == m.history && m'.lostBytes == m.lostBytes && m'.lostObjects == m.lostObjects
    requires m'.st.bytes == m.st.bytes && m'.st.objects == m.st.objects
    ensures Recorded(m', start) && Counted(m')
  {
  }

  lemma BesideKeepsSteady(m: Machine, m': Machine, start: map<Key, Entry>, t: Path)
    requires Steady(m, start) && Beside(m.st.fs, m'.st.fs, t)
    requires m'.history == m.history && m'.published == m.published && m'.seen == m.seen
    requires m'.lostBytes == m.lostBytes && m'.lostObjects == m.lostObjects
    requires m'.st.bytes == m.st.bytes && m'.st.objects == m.st.objects
    ensures Steady(m', start)
  {
    BesideSameView(m.st.fs, m'.st.fs, t);
    SameViewKeepsRecorded(m, m', start);
    BesideKeepsPublished(m.st.fs, m'.st.fs, t, m.published);
    BesideKeepsSightings(m.st.fs, m'.st.fs, t, m.seen, m.published);
  }

  /** Put id works on temporary file t, which it holds or takes. */
  lemma BesideKeepsOwned(m: Machine, t: Path, id: nat, g: Flight)
    requires Owned(m.st.active, m.flights)
    requires g.Holds() == HeldBy(m.flights, id) + {t} && (t in m.st.active ==> t in HeldBy(m.flights, id))
    ensures Owned(m.st.active + {t}, m.flights[id := g])
    ensures t in m.st.active ==> id in m.flights && t in m.flights[id].Holds()
  {
    OwnedUpdate(m.st.active, m.flights, id, g);
    assert m.st.active - HeldBy(m.flights, id) + g.Holds() == m.st.active + {t};
  }

  lemma BesideKeepsAirborne(m: Machine, m': Machine, t: Path, id: nat, g: Flight)
    requires Airborne(m) && Beside(m.st.fs, m'.st.fs, t) && FlightOk(m'.st.fs, g)
    requires m'.flights == m.flights[id := g] && m'.leftover == m.leftover
    requires g.Holds() == HeldBy(m.flights, id) + {t} && (t in m.st.active ==> t in HeldBy(m.flights, id))
    requires m'.st.active == m.st.active + {t}
    ensures Airborne(m')
  {
    BesideKeepsOwned(m, t, id, g);
    BesideKeepsFlying(m.st.fs, m'.st.fs, t, m.st.active, m.flights, id, g);
    BesideKeepsTemps(m.st.fs, m'.st.fs, t, m.st.active, m.leftover);
  }

  /** One syscall of put id on temporary file t, which it holds or takes. */
  lemma TempWork(m: Machine, m': Machine, start: map<Key, Entry>, t: Path, id: nat, g: Flight)
    requires Steady(m, start) && Airborne(m)
    requires Beside(m.st.fs, m'.st.fs, t) && FlightOk(m'.st.fs, g)
    requires m'.history == m.history && m'.published == m.published && m'.seen == m.seen
    requires m'.lostBytes == m.lostBytes && m'.lostObjects == m.lostObjects && m'.leftover == m.leftover
    requires m'.st == m.st.(fs := m'.st.fs, active := m.st.active + {t}) && m'.flights == m.flights[id := g]
    requires g.Holds() == HeldBy(m.flights, id) + {t} && (t in m.st.active ==> t in HeldBy(m.flights, id))
    ensures Steady(m', start) && Airborne(m')
  {
    BesideKeepsSteady(m, m', start, t);
    BesideKeepsAirborne(m, m', t, id, g);
  }

  lemma BeginWorks(m: Machine, start: map<Key, Entry>, id: nat, key: Key, suffix: string, now: int)
    requires Steady(m, start) && Airborne(m) && Fresh(m) && Enabled(m, Begin(id, key, suffix, now))
    ensures Steady(Next(m, Begin(id, key, suffix, now)), start) && Airborne(Next(m, Begin(id, key, suffix, now)))
  {
    var m', t := Next(m, Begin(id, key, suffix, now)), BodyTemp(suffix);
    TempStep(m.st.fs, Create(t, now), t);
    TempWork(m, m', start, t, id, m'.flights[id]);
  }

  lemma BeginFresh(m: Machine, id: nat, key: Key, suffix: string, now: int)
    requires Fresh(m) && Genuine(m) && Enabled(m, Begin(id, key, suffix, now))
    ensures Fresh(Next(m, Begin(id, key, suffix, now))) && Genuine(Next(m, Begin(id, key, suffix, now)))
  {
  }

  lemma WriteWorks(m: Machine, start: map<Key, Entry>, id: nat, bytes: seq<Byte>, now: int)
    requires Steady(m, start) && Airborne(m) && Enabled(m, Write(id, bytes, now))
    ensures Steady(Next(m, Write(id, bytes, now)), start) && Airborne(Next(m, Write(id, bytes, now)))
  {
    var m', t := Next(m, Write(id, bytes, now)), BodyTemp(m.flights[id].suffix);
    TempStep(m.st.fs, Append(t, bytes, now), t);
    assert t in m.flights[id].Holds() && m.st.active + {t} == m.st.active;
    TempWork(m, m', start, t, id, m'.flights[id]);
  }

  lemma WriteFresh(m: Machine, id: nat, bytes: seq<Byte>, now: int)
    requires Fresh(m) && Genuine(m) && Enabled(m, Write(id, bytes, now))
    ensures Fresh(Next(m, Write(id, bytes, now))) && Genuine(Next(m, Write(id, bytes, now)))
  {
    assert m.flights[id].Suffixes() == Next(m, Write(id, bytes, now)).flights[id].Suffixes();
  }

  lemma DescribeTouches(m: Machine, id: nat, metaSuffix: string, meta: Metadata, now: int)
    requires Owned(m.st.active, m.flights) && Enabled(m, Describe(id, metaSuffix, meta, now))
    ensures var m', t := Next(m, Describe(id, metaSuffix, meta, now)), MetaTemp(metaSuffix);
            && m'.st == m.st.(fs := m'.st.fs, active := m.st.active + {t})
            && m'.flights == m.flights[id := m'.flights[id]]
            && m'.flights[id].Holds() == HeldBy(m.flights, id) + {t} && t !in m.st.active
  {
  }

  lemma DescribedFlight(fs: FS, g: Flight, metaSuffix: string, meta: Metadata, now: int)
    requires Wf(fs) && FlightOk(fs, g) && g.Spooling? && MetaTemp(metaSuffix) !in fs.names
    requires meta.bodyFile == GenerationName(g.key, g.suffix) && meta.contentBytes == |g.cached|
    ensures var fs' := Do(fs, Create(MetaTemp(metaSuffix), now));
            && Beside(fs, fs', MetaTemp(metaSuffix))
            && FlightOk(fs', Described(PutJob(g.key, g.suffix, metaSuffix, meta), g.cached, false))
  {
    TempStep(fs, Create(MetaTemp(metaSuffix), now), MetaTemp(metaSuffix));
  }

  lemma DescribeWorks(m: Machine, start: map<Key, Entry>, id: nat, metaSuffix: string, meta: Metadata, now: int)
    requires Steady(m, start) && Airborne(m) && Enabled(m, Describe(id, metaSuffix, meta, now))
    ensures Steady(Next(m, Describe(id, metaSuffix, meta, now)), start)
    ensures Airborne(Next(m, Describe(id, metaSuffix, meta, now)))
  {
    var m', t := Next(m, Describe(id, metaSuffix, meta, now)), MetaTemp(metaSuffix);
    DescribedFlight(m.st.fs, m.flights[id], metaSuffix, meta, now);
    DescribeTouches(m, id, metaSuffix, meta, now);
    TempWork(m, m', start, t, id, m'.flights[id]);
  }

  lemma DescribeFresh(m: Machine, id: nat, metaSuffix: string, meta: Metadata, now: int)
    requires Fresh(m) && Genuine(m) && Enabled(m, Describe(id, metaSuffix, meta, now))
    ensures Fresh(Next(m, Describe(id, metaSuffix, meta, now)))
    ensures Genuine(Next(m, Describe(id, metaSuffix, meta, now)))
  {
    assert m.flights[id].Suffixes() == Next(m, Describe(id, metaSuffix, meta, now)).flights[id].Suffixes();
  }

  lemma EncodedFlight(fs: FS, g: Flight, now: int)
    requires Wf(fs) && FlightOk(fs, g) && g.Described? && !g.written
    ensures var fs' := Do(fs, Encode(g.job.Meta(), g.job.meta, now));
            Beside(fs, fs', g.job.Meta()) && FlightOk(fs', g.(written := true))
  {
    TempStep(fs, Encode(g.job.Meta(), g.job.meta, now), g.job.Meta());
  }

  lemma WriteMetadataTouches(m: Machine, id: nat, now: int)
    requires Owned(m.st.active, m.flights) && Enabled(m, WriteMetadata(id, now))
    ensures var m', t := Next(m, WriteMetadata(id, now)), m.flights[id].job.Meta();
            && m'.st == m.st.(fs := m'.st.fs, active := m.st.active + {t})
            && m'.flights == m.flights[id := m'.flights[id]]
            && m'.flights[id].Holds() == HeldBy(m.flights, id) + {t} && t in HeldBy(m.flights, id)
  {
    assert m.flights[id].job.Meta() in m.flights[id].Holds();
    assert m.st.active + {m.flights[id].job.Meta()} == m.st.active;
  }

  lemma WriteMetadataWorks(m: Machine, start: map<Key, Entry>, id: nat, now: int)
    requires Steady(m, start) && Airborne(m) && Enabled(m, WriteMetadata(id, now))
    ensures Steady(Next(m, WriteMetadata(id, now)), start) && Airborne(Next(m, WriteMetadata(id, now)))
  {
    var m', t := Next(m, WriteMetadata(id, now)), m.flights[id].job.Meta();
    EncodedFlight(m.st.fs, m.flights[id], now);
    WriteMetadataTouches(m, id, now);
    TempWork(m, m', start, t, id, m'.flights[id]);
  }

  lemma WriteMetadataFresh(m: Machine, id: nat, now: int)
    requires Fresh(m) && Genuine(m) && Enabled(m, WriteMetadata(id, now))
    ensures Fresh(Next(m, WriteMetadata(id, now))) && Genuine(Next(m, WriteMetadata(id, now)))
  {
    assert m.flights[id].Suffixes() == Next(m, WriteMetadata(id, now)).flights[id].Suffixes();
  }

  // ---------------------------------------------------------------- the other steps

  lemma SameSteady(m: Machine, m': Machine, start: map<Key, Entry>)
    requires Steady(m, start)
    requires m'.st.fs == m.st.fs && m'.st.bytes == m.st.bytes && m'.st.objects == m.st.objects
    requires m'.history == m.history && m'.published == m.published && m'.seen == m.seen
    requires m'.lostBytes == m.lostBytes && m'.lostObjects == m.lostObjects
    ensures Steady(m', start)
  {
  }

  lemma GiveUpFlying(fs: FS, flights: map<nat, Flight>, id: nat)
    requires Flying(fs, flights) && id in flights && !flights[id].Closing?
    ensures Flying(fs, flights[id := Closing(Unwinding(flights[id]))])
  {
  }

  lemma GiveUpWorks(m: Machine, id: nat)
    requires Airborne(m) && Enabled(m, GiveUp(id))
    ensures Airborne(Next(m, GiveUp(id)))
  {
    GiveUpFlying(m.st.fs, m.flights, id);
    CommitKeepsOwned(m, id);
  }

  lemma GiveUpFresh(m: Machine, id: nat)
    requires Fresh(m) && Genuine(m) && Enabled(m, GiveUp(id))
    ensures Fresh(Next(m, GiveUp(id))) && Genuine(Next(m, GiveUp(id)))
  {
  }

  lemma ObserveRemembers(m: Machine, key: Key)
    requires PublishedOk(m.st.fs, m.published) && AllRemembered(m.st.fs, m.seen, m.published)
             && Enabled(m, Observe(key))
    ensures AllRemembered(m.st.fs, Next(m, Observe(key)).seen, m.published)
  {
    var x := Sighting(CandidateOf(m.st.fs, key, Get(m.st.fs, key).value), Get(m.st.fs, key).value);
    assert NamedSuffix(m.st.fs, key).Some? ==> NamedSuffix(m.st.fs, key).value in m.published;
    assert Remembered(m.st.fs, x, m.published);
  }

  lemma ObserveSettles(m: Machine, start: map<Key, Entry>, key: Key)
    requires Steady(m, start) && Enabled(m, Observe(key))
    ensures Steady(Next(m, Observe(key)), start)
  {
    ObserveRemembers(m, key);
  }

  lemma SameAirborne(m: Machine, m': Machine)
    requires m'.st.fs == m.st.fs && m'.st.active == m.st.active && m'.flights == m.flights && m'.leftover == m.leftover
    requires Airborne(m)
    ensures Airborne(m')
  {
  }

  lemma SameFresh(m: Machine, m': Machine)
    requires m'.st.active == m.st.active && m'.flights == m.flights && m'.used == m.used && m'.published == m.published
    requires m'.history == m.history && m'.offered == m.offered
    requires Fresh(m) && Genuine(m)
    ensures Fresh(m') && Genuine(m')
  {
  }

  lemma TouchIsSilent(fs: FS, p: Path, now: int)
    requires Wf(fs) && p.IsBody()
    ensures var r := Do(fs, Chtimes(p, now)); Wf(r) && forall q :: At(r, q) == At(fs, q)
    ensures Do(fs, Chtimes(p, now)).names == fs.names
  {
    DoEffect(fs, Chtimes(p, now));
  }

  lemma SilentKeepsSteady(m: Machine, m': Machine, start: map<Key, Entry>)
    requires Steady(m, start) && Wf(m'.st.fs) && m'.st.fs.names == m.st.fs.names
    requires forall q :: At(m'.st.fs, q) == At(m.st.fs, q)
    requires m' == m.(st := m.st.(fs := m'.st.fs))
    ensures Steady(m', start)
  {
    SameView(m.st.fs, m'.st.fs);
    forall k ensures NamedSuffix(m'.st.fs, k) == NamedSuffix(m.st.fs, k) {
      SamePrevious(m.st.fs, m'.st.fs, k);
    }
    assert Recorded(m', start) && Counted(m');
    SilentKeepsSightings(m, m'.st.fs);
  }

  lemma SilentKeepsSightings(m: Machine, fs: FS)
    requires AllRemembered(m.st.fs, m.seen, m.published) && fs.names == m.st.fs.names
    requires forall q :: At(fs, q) == At(m.st.fs, q)
    ensures AllRemembered(fs, m.seen, m.published)
  {
    forall x | x in m.seen ensures Remembered(fs, x, m.published) {
      assert Remembered(m.st.fs, x, m.published);
    }
  }

  lemma SilentKeepsAirborne(m: Machine, fs: FS)
    requires Airborne(m) && fs.names == m.st.fs.names && forall q :: At(fs, q) == At(m.st.fs, q)
    ensures Airborne(WithFS(m, fs))
  {
    forall id | id in m.flights ensures FlightOk(fs, m.flights[id]) {
      assert FlightOk(m.st.fs, m.flights[id]);
    }
    assert TempNames(fs) == TempNames(m.st.fs);
  }

  lemma TouchWorks(m: Machine, start: map<Key, Entry>, key: Key, now: int)
    requires Steady(m, start) && Airborne(m) && Enabled(m, Touch(key, now))
    ensures Steady(Next(m, Touch(key, now)), start) && Airborne(Next(m, Touch(key, now)))
  {
    var p := CurrentBody(m.st.fs, key).value;
    TouchIsSilent(m.st.fs, p, now);
    SilentKeepsSteady(m, Next(m, Touch(key, now)), start);
    SilentKeepsAirborne(m, Next(m, Touch(key, now)).st.fs);
  }

  /** Cleaning a temporary file nobody holds. */
  lemma CleanKeepsAirborne(m: Machine, t: Path)
    requires Airborne(m) && Wf(m.st.fs) && t.IsTemp() && t !in m.st.active
    ensures Airborne(WithFS(m, Do(m.st.fs, Unlink(t))))
  {
    var fs' := Do(m.st.fs, Unlink(t));
    TempStep(m.st.fs, Unlink(t), t);
    forall id | id in m.flights ensures FlightOk(fs', m.flights[id]) {
      BesideKeepsFlight(m.st.fs, fs', t, m.flights[id]);
    }
    BesideKeepsTemps(m.st.fs, fs', t, m.st.active, m.leftover);
    assert m.st.active - {t} == m.st.active;
  }

  lemma CleanTempWorks(m: Machine, start: map<Key, Entry>, t: Path)
    requires Steady(m, start) && Airborne(m) && Enabled(m, CleanTemp(t))
    ensures Steady(Next(m, CleanTemp(t)), start) && Airborne(Next(m, CleanTemp(t)))
  {
    TempStep(m.st.fs, Unlink(t), t);
    BesideKeepsSteady(m, Next(m, CleanTemp(t)), start, t);
    CleanKeepsAirborne(m, t);
  }

  /** The put's state after its first deferred clean-up. */
  function Unwound(flights: map<nat, Flight>, id: nat): map<nat, Flight>
    requires id in flights && flights[id].Closing? && flights[id].temps != []
  {
    var temps := flights[id].temps;
    if |temps| == 1 then flights - {id} else flights[id := Closing(temps[1..])]
  }

  lemma UnwoundHolds(flights: map<nat, Flight>, id: nat)
    requires id in flights && flights[id].Closing? && flights[id].temps != []
    requires var temps := flights[id].temps; forall i, j :: 0 <= i < j < |temps| ==> temps[i] != temps[j]
    ensures HeldBy(Unwound(flights, id), id) == flights[id].Holds() - {flights[id].temps[0]}
    ensures Unwound(flights, id) - {id} == flights - {id}
  {
    var temps := flights[id].temps;
    assert temps == [temps[0]] + temps[1..];
  }

  lemma UnwindOwned(active: set<Path>, flights: map<nat, Flight>, id: nat)
    requires Owned(active, flights) && id in flights && flights[id].Closing? && flights[id].temps != []
    requires var temps := flights[id].temps; forall i, j :: 0 <= i < j < |temps| ==> temps[i] != temps[j]
    ensures Owned(active - {flights[id].temps[0]}, Unwound(flights, id))
  {
    var t, flights' := flights[id].temps[0], Unwound(flights, id);
    var held := flights[id].Holds() - {t};
    UnwoundHolds(flights, id);
    HoldersRemain(active, flights, id, flights', held);
    assert t in flights[id].Holds();
    assert active - HeldBy(flights, id) + held == active - {t};
    ApartRemain(active, flights, id, flights', t);
  }

  lemma ApartRemain(active: set<Path>, flights: map<nat, Flight>, id: nat, flights': map<nat, Flight>, t: Path)
    requires Owned(active, flights) && id in flights && t in flights[id].Holds()
    requires flights' - {id} == flights - {id} && HeldBy(flights', id) == flights[id].Holds() - {t}
    ensures forall i :: i in flights' ==> flights'[i].Holds() <= active - {t}
    ensures forall i, j :: i in flights' && j in flights' && i != j ==> flights'[i].Holds() !! flights'[j].Holds()
  {
    forall i | i in flights' && i != id
      ensures i in flights && flights'[i] == flights[i]
    {
      assert i in flights' - {id} && (flights' - {id})[i] == flights'[i];
    }
  }

  lemma UnwindFlying(fs: FS, fs': FS, active: set<Path>, flights: map<nat, Flight>, id: nat)
    requires Flying(fs, flights) && Owned(active, flights) && id in flights && flights[id].Closing?
             && flights[id].temps != []
    requires Beside(fs, fs', flights[id].temps[0])
    ensures Flying(fs', Unwound(flights, id))
  {
    var t := flights[id].temps[0];
    assert t in flights[id].Holds();
    forall j | j in flights && j != id ensures FlightOk(fs', flights[j]) {
      assert flights[id].Holds() !! flights[j].Holds();
      BesideKeepsFlight(fs, fs', t, flights[j]);
    }
  }

  lemma ForgottenBeside(m: Machine, id: nat, unlinkFails: bool)
    requires Wf(m.st.fs) && Airborne(m) && Enabled(m, Unwind(id, unlinkFails))
    ensures Beside(m.st.fs, Next(m, Unwind(id, unlinkFails)).st.fs, m.flights[id].temps[0])
    ensures !unlinkFails ==> m.flights[id].temps[0] !in Next(m, Unwind(id, unlinkFails)).st.fs.names
  {
    assert FlightOk(m.st.fs, m.flights[id]);
    TempStep(m.st.fs, Unlink(m.flights[id].temps[0]), m.flights[id].temps[0]);
  }

  lemma UnwindWorks(m: Machine, start: map<Key, Entry>, id: nat, unlinkFails: bool)
    requires Steady(m, start) && Airborne(m) && Enabled(m, Unwind(id, unlinkFails))
    ensures Steady(Next(m, Unwind(id, unlinkFails)), start)
  {
    ForgottenBeside(m, id, unlinkFails);
    BesideKeepsSteady(m, Next(m, Unwind(id, unlinkFails)), start, m.flights[id].temps[0]);
  }

  lemma UnwindLands(m: Machine, id: nat, unlinkFails: bool)
    requires Wf(m.st.fs) && Airborne(m) && Enabled(m, Unwind(id, unlinkFails))
    ensures Airborne(Next(m, Unwind(id, unlinkFails)))
  {
    var m', t := Next(m, Unwind(id, unlinkFails)), m.flights[id].temps[0];
    ForgottenBeside(m, id, unlinkFails);
    assert FlightOk(m.st.fs, m.flights[id]);
    UnwindOwned(m.st.active, m.flights, id);
    UnwindFlying(m.st.fs, m'.st.fs, m.st.active, m.flights, id);
    BesideKeepsTemps(m.st.fs, m'.st.fs, t, m.st.active, m'.leftover);
  }

  lemma UnwindFresh(m: Machine, id: nat, unlinkFails: bool)
    requires Fresh(m) && Genuine(m) && Enabled(m, Unwind(id, unlinkFails))
    ensures Fresh(Next(m, Unwind(id, unlinkFails))) && Genuine(Next(m, Unwind(id, unlinkFails)))
  {
  }

  // ---------------------------------------------------------------- runs

  lemma InvFromParts(m: Machine, start: map<Key, Entry>)
    requires Steady(m, start) && Airborne(m) && Fresh(m) && Genuine(m)
    ensures Inv(m, start)
  {
  }

  /** Steps that write, create or remove temporary files, or only look. */
  lemma SmallStepKeepsInv(m: Machine, start: map<Key, Entry>, l: Label)
    requires Inv(m, start) && Enabled(m, l) && !l.Finish? && !l.Crash?
    ensures Inv(Next(m, l), start)
  {
    match l {
      case Begin(id, key, suffix, now) =>
        BeginWorks(m, start, id, key, suffix, now);
        BeginFresh(m, id, key, suffix, now);
      case Write(id, bytes, now) => WriteWorks(m, start, id, bytes, now); WriteFresh(m, id, bytes, now);
      case Describe(id, metaSuffix, meta, now) =>
        DescribeWorks(m, start, id, metaSuffix, meta, now);
        DescribeFresh(m, id, metaSuffix, meta, now);
      case WriteMetadata(id, now) => WriteMetadataWorks(m, start, id, now); WriteMetadataFresh(m, id, now);
      case GiveUp(id) => SameSteady(m, Next(m, l), start); GiveUpWorks(m, id); GiveUpFresh(m, id);
      case Unwind(id, unlinkFails) =>
        UnwindWorks(m, start, id, unlinkFails);
        UnwindLands(m, id, unlinkFails);
        UnwindFresh(m, id, unlinkFails);
      case Observe(key) => ObserveSettles(m, start, key); SameAirborne(m, Next(m, l)); SameFresh(m, Next(m, l));
      case Touch(key, now) => TouchWorks(m, start, key, now); SameFresh(m, Next(m, l));
      case CleanTemp(path) => CleanTempWorks(m, start, path); SameFresh(m, Next(m, l));
    }
    InvFromParts(Next(m, l), start);
  }

  /** Every step keeps the invariant. */
  lemma StepKeepsInv(m: Machine, start: map<Key, Entry>, l: Label)
    requires Inv(m, start) && Enabled(m, l)
    ensures Inv(Next(m, l), start)
  {
    match l
    case Finish(r) => FinishKeepsInv(m, start, r);
    case Crash(r, n) => CrashKeepsInv(m, start, r, n);
    case _ => SmallStepKeepsInv(m, start, l);
  }

  ghost predicate Runs(m: Machine, ls: seq<Label>, m': Machine)
    decreases ls
  {
    if ls == [] then m' == m else Enabled(m, ls[0]) && Runs(Next(m, ls[0]), ls[1..], m')
  }

  /** New over an existing directory; drawn: suffixes that must not be drawn again. */
  ghost function Boot(fs: FS, drawn: set<string>): Machine {
    Machine(StoreState(fs, ViewBytes(View(fs)), |View(fs)|, {}), map[], drawn, drawn, {}, {}, [], 0, 0, TempNames(fs))
  }

  lemma BootIsSteady(fs: FS, drawn: set<string>)
    requires Wf(fs) && PublishedOk(fs, drawn)
    ensures Steady(Boot(fs, drawn), View(fs))
  {
    var m := Boot(fs, drawn);
    assert Replay(View(fs), []) == View(fs);
    SteadyFromParts(m, View(fs));
  }

  lemma BootIsGrounded(fs: FS, drawn: set<string>)
    ensures Airborne(Boot(fs, drawn)) && Fresh(Boot(fs, drawn)) && Genuine(Boot(fs, drawn))
  {
  }

  lemma BootHasInv(fs: FS, drawn: set<string>)
    requires Wf(fs) && PublishedOk(fs, drawn)
    ensures Inv(Boot(fs, drawn), View(fs))
  {
    BootIsSteady(fs, drawn);
    BootIsGrounded(fs, drawn);
    InvFromParts(Boot(fs, drawn), View(fs));
  }

  lemma {:induction false} RunKeepsInv(m: Machine, ls: seq<Label>, m': Machine, start: map<Key, Entry>)
    requires Inv(m, start) && Runs(m, ls, m')
    ensures Inv(m', start)
    decreases ls
  {
    if ls != [] {
      StepKeepsInv(m, start, ls[0]);
      RunKeepsInv(Next(m, ls[0]), ls[1..], m', start);
    }
  }

  /** Refinement. In every state of every interleaving, crashes included, the store serves exactly
      the last entry stored under each key and not dropped since; each of these is a whole entry
      that one put prepared; and the counters are a full scan plus what replace's fallback lost. */
  lemma StoreRefinesMap(fs: FS, drawn: set<string>, ls: seq<Label>, m: Machine)
    requires Wf(fs) && PublishedOk(fs, drawn) && Runs(Boot(fs, drawn), ls, m)
    ensures View(m.st.fs) == Replay(View(fs), m.history)
    ensures forall e :: e in m.history && e.Stored? ==> e in m.offered
    ensures m.st.bytes == ViewBytes(View(m.st.fs)) + m.lostBytes
    ensures m.st.objects == |View(m.st.fs)| + m.lostObjects
  {
    BootHasInv(fs, drawn);
    RunKeepsInv(Boot(fs, drawn), ls, m, View(fs));
  }

  lemma GetIsLastStored(fs: FS, drawn: set<string>, ls: seq<Label>, m: Machine, k: Key, e: Entry)
    requires Wf(fs) && PublishedOk(fs, drawn) && Runs(Boot(fs, drawn), ls, m)
    ensures Get(m.st.fs, k) == Some(e) <==>
              || (exists i: nat :: LastStored(m.history, i, k, e))
              || (Get(fs, k) == Some(e) && forall j :: 0 <= j < |m.history| ==> m.history[j].key != k)
  {
    StoreRefinesMap(fs, drawn, ls, m);
    ReplayIsLastStored(View(fs), m.history, k, e);
    ViewIsGet(fs, k);
    ViewIsGet(m.st.fs, k);
  }

  /** A lookup's view of a run: what it serves is exactly the last entry stored for the key and not
      dropped since, or the one found at startup if nothing happened to the key - unless that has
      expired. */
  lemma LookupServesLastStored(fs: FS, drawn: set<string>, ls: seq<Label>, m: Machine, k: Key, e: Entry, ttl: int,
                               now: int)
    requires Wf(fs) && PublishedOk(fs, drawn) && Runs(Boot(fs, drawn), ls, m)
    ensures Served(m.st.fs, k, ttl, now) == Some(e) <==>
              && now - e.meta.storedAt < ttl
              && (|| (exists i: nat :: LastStored(m.history, i, k, e))
                  || (Get(fs, k) == Some(e) && forall j :: 0 <= j < |m.history| ==> m.history[j].key != k))
  {
    GetIsLastStored(fs, drawn, ls, m, k, e);
  }

  lemma TempsAreSafeNow(m: Machine)
    requires Airborne(m)
    ensures forall id :: id in m.flights && !m.flights[id].Closing? ==> m.flights[id].Holds() <= m.st.fs.names.Keys
    ensures m.flights == map[] ==> m.st.active == {} && TempNames(m.st.fs) <= m.leftover
  {
    forall id | id in m.flights && !m.flights[id].Closing?
      ensures m.flights[id].Holds() <= m.st.fs.names.Keys
    {
      assert FlightOk(m.st.fs, m.flights[id]);
    }
  }

  /** The temporary-file protocol. No put in flight ever misses a temporary file it still needs,
      whatever clean-ups run beside it; and once no put is in flight no name is in use and the
      only temporary files are those a failed removal or a crash left behind. */
  lemma TempsAreSafe(fs: FS, drawn: set<string>, ls: seq<Label>, m: Machine)
    requires Wf(fs) && PublishedOk(fs, drawn) && Runs(Boot(fs, drawn), ls, m)
    ensures forall id :: id in m.flights && !m.flights[id].Closing? ==> m.flights[id].Holds() <= m.st.fs.names.Keys
    ensures m.flights == map[] ==> m.st.active == {} && TempNames(m.st.fs) <= m.leftover
  {
    BootHasInv(fs, drawn);
    RunKeepsInv(Boot(fs, drawn), ls, m, View(fs));
    TempsAreSafeNow(m);
  }

  // ---------------------------------------------------------------- losses

  /** The step is a commit that loses the entry it was to replace. */
  ghost predicate LosingStep(m: Machine, l: Label)
    requires Enabled(m, l)
  {
    l.Finish? && LosesEntry(m, l.region)
  }

  lemma FinishedCommit(m: Machine, id: nat, f: CommitFaults)
    requires RegionEnabled(m, Committing(id, f))
    ensures var l, job := Finish(Committing(id, f)), m.flights[id].job;
            Next(m, l).st.fs == Run(m.st.fs, CommitActs(m.st.fs, job, f))
            && (LosingStep(m, l) <==> Loses(m.st.fs, job, f))
  {
  }

  /** A commit loses exactly if its key is served before and not after. */
  lemma LosingStepDropsEntry(m: Machine, start: map<Key, Entry>, id: nat, f: CommitFaults)
    requires Inv(m, start) && RegionEnabled(m, Committing(id, f))
    ensures var l, key := Finish(Committing(id, f)), m.flights[id].job.key;
            LosingStep(m, l) <==> key in View(m.st.fs) && key !in View(Next(m, l).st.fs)
  {
    WrittenIsReady(m, start, id);
    LosesIffDropped(m.st.fs, m.flights[id].job, m.flights[id].body, f);
    FinishedCommit(m, id, f);
  }

  /** What the counters stand above the scan changes at losing steps, and is made good by a restart. */
  lemma StepLoss(m: Machine, l: Label)
    requires Enabled(m, l)
    ensures var m' := Next(m, l);
            && (l.Crash? ==> m'.lostBytes == 0 && m'.lostObjects == 0)
            && (!l.Crash? ==> m'.lostObjects == m.lostObjects + (if LosingStep(m, l) then 1 else 0))
            && (!l.Crash? && LosingStep(m, l) ==>
                  m'.lostBytes == m.lostBytes + SizeIn(View(m.st.fs), m.flights[l.region.id].job.key))
            && (!l.Crash? && !LosingStep(m, l) ==> m'.lostBytes == m.lostBytes)
  {
    if LosingStep(m, l) { PreviousIsEntry(m.st.fs, m.flights[l.region.id].job.key); }
  }

  predicate NoCrash(ls: seq<Label>) { forall i :: 0 <= i < |ls| ==> !ls[i].Crash? }

  /** The run has a losing step and no restart after it. */
  ghost predicate LosesSinceCrash(m: Machine, ls: seq<Label>)
    decreases ls
  {
    ls != [] && Enabled(m, ls[0])
    && ((LosingStep(m, ls[0]) && NoCrash(ls[1..])) || LosesSinceCrash(Next(m, ls[0]), ls[1..]))
  }

  lemma NoCrashTail(ls: seq<Label>)
    requires ls != []
    ensures NoCrash(ls) <==> !ls[0].Crash? && NoCrash(ls[1..])
  {
    if NoCrash(ls[1..]) && !ls[0].Crash? {
      forall i | 0 <= i < |ls|
        ensures !ls[i].Crash?
      {
        if i > 0 { assert ls[i] == ls[1..][i - 1]; }
      }
    }
  }

  lemma LossStep(m: Machine, l: Label)
    requires Enabled(m, l) && (m.lostObjects == 0 ==> m.lostBytes == 0)
    ensures Next(m, l).lostObjects == 0 ==> Next(m, l).lostBytes == 0
    ensures Next(m, l).lostObjects > 0 <==> !l.Crash? && (m.lostObjects > 0 || LosingStep(m, l))
  {
    StepLoss(m, l);
  }

  lemma {:induction false} LossIffLosingStep(m: Machine, ls: seq<Label>, m': Machine)
    requires Runs(m, ls, m') && (m.lostObjects == 0 ==> m.lostBytes == 0)
    ensures m'.lostObjects == 0 ==> m'.lostBytes == 0
    ensures m'.lostObjects > 0 <==> LosesSinceCrash(m, ls) || (m.lostObjects > 0 && NoCrash(ls))
    decreases ls
  {
    if ls != [] {
      LossStep(m, ls[0]);
      NoCrashTail(ls);
      LossIffLosingStep(Next(m, ls[0]), ls[1..], m');
    }
  }

  /** The counters agree with a full scan exactly in the states since whose last start no commit's
      fallback lost an entry. */
  lemma CountersMatchScan(fs: FS, drawn: set<string>, ls: seq<Label>, m: Machine)
    requires Wf(fs) && PublishedOk(fs, drawn) && Runs(Boot(fs, drawn), ls, m)
    ensures m.st.bytes == ViewBytes(View(m.st.fs)) && m.st.objects == |View(m.st.fs)|
       <==> !LosesSinceCrash(Boot(fs, drawn), ls)
  {
    StoreRefinesMap(fs, drawn, ls, m);
    LossIffLosingStep(Boot(fs, drawn), ls, m);
  }

  /** Neither a crash nor a failing removal of a temporary file. */
  predicate LeavesNothing(l: Label) { !l.Crash? && (l.Unwind? ==> !l.unlinkFails) }

  /** With working removals and no crash, nothing is left when the last put is done. */
  lemma {:induction false} NoTempsRemain(m: Machine, ls: seq<Label>, m': Machine, start: map<Key, Entry>)
    requires Inv(m, start) && Runs(m, ls, m') && m.leftover == {}
    requires forall i :: 0 <= i < |ls| ==> LeavesNothing(ls[i])
    ensures m'.flights == map[] ==> TempNames(m'.st.fs) == {} && m'.st.active == {}
    decreases ls
  {
    if ls == [] {
      assert Airborne(m);
    } else {
      StepKeepsInv(m, start, ls[0]);
      NoTempsRemain(Next(m, ls[0]), ls[1..], m', start);
    }
  }

  lemma RememberedRemoves(fs: FS, x: Sighting, published: set<string>, bodyFails: bool)
    requires Wf(fs) && Remembered(fs, x, published)
    ensures WillRemove(fs, x.candidate, bodyFails) <==> Get(fs, x.candidate.key) == Some(x.entry) && !bodyFails
  {
    NamedIffContent(fs, x.candidate.bodyPath);
  }

  /** Generation safety: however many puts, lookups and collections came between, a candidate
      removes its key exactly if the key still serves the very entry the candidate was taken from. */
  lemma CandidateRemovesOnlyItsEntry(m: Machine, start: map<Key, Entry>, x: Sighting, bodyFails: bool)
    requires Inv(m, start) && x in m.seen
    ensures WillRemove(m.st.fs, x.candidate, bodyFails) <==>
              Get(m.st.fs, x.candidate.key) == Some(x.entry) && !bodyFails
  {
    InvHasWf(m, start);
    assert Remembered(m.st.fs, x, m.published) by { assert Steady(m, start); }
    RememberedRemoves(m.st.fs, x, m.published, bodyFails);
  }

  // ---------------------------------------------------------------- what puts prepare

  /** Every put of the run prepares a body that satisfies P in the state it is prepared in. */
  ghost predicate Vetted(m: Machine, ls: seq<Label>, P: (Key, Entry) -> bool)
    decreases ls
  {
    ls == [] || (Enabled(m, ls[0]) && VettedStep(m, ls[0], P) && Vetted(Next(m, ls[0]), ls[1..], P))
  }

  ghost predicate VettedStep(m: Machine, l: Label, P: (Key, Entry) -> bool)
    requires Enabled(m, l)
  {
    l.Describe? ==> P(m.flights[l.id].key, Entry(l.meta, m.flights[l.id].cached))
  }

  ghost predicate AllSatisfy(offered: set<Event>, P: (Key, Entry) -> bool) {
    forall e :: e in offered ==> e.Stored? && P(e.key, e.entry)
  }

  lemma {:induction false} OfferedAreVetted(m: Machine, ls: seq<Label>, m': Machine, P: (Key, Entry) -> bool)
    requires Runs(m, ls, m') && Vetted(m, ls, P) && AllSatisfy(m.offered, P)
    ensures AllSatisfy(m'.offered, P)
    decreases ls
  {
    if ls != [] { OfferedAreVetted(Next(m, ls[0]), ls[1..], m', P); }
  }

  /** What is checked of every body before its metadata is prepared, and held of all entries at the
      start, holds of every entry in every state, crashes included. */
  lemma VettedEntriesAreServed(fs: FS, drawn: set<string>, ls: seq<Label>, m: Machine, P: (Key, Entry) -> bool)
    requires Wf(fs) && PublishedOk(fs, drawn) && Runs(Boot(fs, drawn), ls, m) && Vetted(Boot(fs, drawn), ls, P)
    requires forall k :: k in View(fs) ==> P(k, View(fs)[k])
    ensures forall k :: k in View(m.st.fs) ==> P(k, View(m.st.fs)[k])
  {
    OfferedAreVetted(Boot(fs, drawn), ls, m, P);
    StoreRefinesMap(fs, drawn, ls, m);
    forall i | 0 <= i < |m.history| && m.history[i].Stored?
      ensures P(m.history[i].key, m.history[i].entry)
    {
      assert m.history[i] in m.history;
    }
    ServedEntriesSatisfy(P, View(fs), m.history);
  }

  /** What holds of every entry ever stored holds of every entry ever served. */
  lemma {:induction false} ServedEntriesSatisfy(P: (Key, Entry) -> bool, start: map<Key, Entry>, h: seq<Event>)
    requires forall k :: k in start ==> P(k, start[k])
    requires forall i :: 0 <= i < |h| && h[i].Stored? ==> P(h[i].key, h[i].entry)
    ensures forall k :: k in Replay(start, h) ==> P(k, Replay(start, h)[k])
    decreases |h|
  {
    if h != [] {
      ServedEntriesSatisfy(P, start, h[..|h| - 1]);
    }
  }

  // ---------------------------------------------------------------- open handles

  /** The syscalls of one step. */
  ghost function StepActs(m: Machine, l: Label): seq<Action>
    requires Enabled(m, l)
  {
    match l
    case Begin(_, _, suffix, now) => [Create(BodyTemp(suffix), now)]
    case Write(id, bytes, now) => [Append(BodyTemp(m.flights[id].suffix), bytes, now)]
    case Describe(_, metaSuffix, _, now) => [Create(MetaTemp(metaSuffix), now)]
    case WriteMetadata(id, now) => [Encode(m.flights[id].job.Meta(), m.flights[id].job.meta, now)]
    case Finish(r) => RegionActs(m, r)
    case Unwind(id, unlinkFails) => if unlinkFails then [] else [Unlink(m.flights[id].temps[0])]
    case Touch(key, now) => [Chtimes(CurrentBody(m.st.fs, key).value, now)]
    case CleanTemp(path) => [Unlink(path)]
    case Crash(r, n) => RegionActs(m, r)[..n]
    case GiveUp(_) => []
    case Observe(_) => []
  }

  lemma RegionIsLegal(m: Machine, r: Region, n: nat)
    requires RegionEnabled(m, r) && n <= |RegionActs(m, r)|
    ensures LegalRun(m.st.fs, RegionActs(m, r)[..n]) && RegionActs(m, r)[..|RegionActs(m, r)|] == RegionActs(m, r)
  {
    RegionVocabulary(m, r);
    AlwaysLegalRun(m.st.fs, RegionActs(m, r)[..n]);
  }

  lemma ShortRunIsLegal(fs: FS, acts: seq<Action>)
    requires |acts| <= 1 && forall a :: a in acts ==> Legal(fs, a)
    ensures LegalRun(fs, acts) && Run(fs, acts) == if acts == [] then fs else Do(fs, acts[0])
  {
    if acts != [] {
      assert acts == [acts[0]];
      Step1(fs, acts[0], {});
    }
  }

  /** Every step, and every crash, is a legal run of syscalls. */
  lemma StepIsLegal(m: Machine, l: Label)
    requires Airborne(m) && Enabled(m, l)
    ensures LegalRun(m.st.fs, StepActs(m, l)) && Next(m, l).st.fs == Run(m.st.fs, StepActs(m, l))
  {
    if l.Finish? {
      RegionIsLegal(m, l.region, |RegionActs(m, l.region)|);
      RegionRuns(m, l.region);
    } else if l.Crash? {
      RegionIsLegal(m, l.region, l.n);
    } else {
      ShortRunIsLegal(m.st.fs, StepActs(m, l));
    }
  }

  lemma InvHasWf(m: Machine, start: map<Key, Entry>)
    requires Inv(m, start)
    ensures Airborne(m) && Wf(m.st.fs)
  {
  }

  /** A reader that opened a committed body keeps reading the original bytes through every later
      run of the machine, whatever is replaced, collected, cleaned or lost meanwhile. */
  lemma {:induction false} HandleReadsOriginal(m: Machine, ls: seq<Label>, m': Machine, start: map<Key, Entry>,
                                               ino: nat)
    requires Inv(m, start) && Runs(m, ls, m') && Sealed(m.st.fs, ino)
    ensures ino in m'.st.fs.files && m'.st.fs.files[ino].content == m.st.fs.files[ino].content
    decreases ls
  {
    if ls != [] {
      assert Airborne(m) && Wf(m.st.fs) by { InvHasWf(m, start); }
      StepIsLegal(m, ls[0]);
      OpenHandleIsStable(m.st.fs, StepActs(m, ls[0]), ino);
      StepKeepsInv(m, start, ls[0]);
      HandleReadsOriginal(Next(m, ls[0]), ls[1..], m', start, ino);
    }
  }

  // ---------------------------------------------------------------- one put as a run

  ghost predicate Steps(m: Machine, l: Label, m': Machine) { Enabled(m, l) && m' == Next(m, l) }

  /** Fresh names for a put of key. */
  ghost predicate CanBegin(m: Machine, id: nat, key: Key, suffix: string, metaSuffix: string) {
    && id !in m.flights && '/' !in key && '/' !in suffix
    && suffix !in m.used && BodyTemp(suffix) !in m.st.fs.names
    && MetaTemp(metaSuffix) !in m.st.fs.names && MetaTemp(metaSuffix) !in m.st.active
  }

  /** The metadata a put prepares is bound to its body. */
  predicate Describes(job: PutJob, body: seq<Byte>) {
    job.meta.bodyFile == GenerationName(job.key, job.bodySuffix) && job.meta.contentBytes == |body|
  }

  lemma BeginStage(m: Machine, id: nat, key: Key, suffix: string, metaSuffix: string, now: int) returns (m': Machine)
    requires CanBegin(m, id, key, suffix, metaSuffix)
    ensures Steps(m, Begin(id, key, suffix, now), m')
    ensures m'.history == m.history && m'.flights == m.flights[id := Spooling(key, suffix, [])]
    ensures m'.st == m.st.(fs := Do(m.st.fs, Create(BodyTemp(suffix), now)), active := m.st.active + {BodyTemp(suffix)})
    ensures MetaTemp(metaSuffix) !in m'.st.fs.names && MetaTemp(metaSuffix) !in m'.st.active
  {
    m' := Next(m, Begin(id, key, suffix, now));
  }

  lemma WriteStage(m: Machine, id: nat, bytes: seq<Byte>, now: int) returns (m': Machine)
    requires id in m.flights && m.flights[id].Spooling?
    ensures Steps(m, Write(id, bytes, now), m') && m'.history == m.history
    ensures m'.flights == m.flights[id := m.flights[id].(cached := m.flights[id].cached + bytes)]
    ensures m'.st == m.st.(fs := Do(m.st.fs, Append(BodyTemp(m.flights[id].suffix), bytes, now)))
    ensures m'.st.fs.names == m.st.fs.names && m'.st.active == m.st.active
  {
    m' := Next(m, Write(id, bytes, now));
  }

  lemma DescribeStage(m: Machine, id: nat, job: PutJob, body: seq<Byte>, now: int) returns (m': Machine)
    requires id in m.flights && m.flights[id] == Spooling(job.key, job.bodySuffix, body) && Describes(job, body)
    requires job.Meta() !in m.st.fs.names && job.Meta() !in m.st.active
    ensures Steps(m, Describe(id, job.metaSuffix, job.meta, now), m') && m'.history == m.history
    ensures m'.flights == m.flights[id := Described(job, body, false)]
    ensures m'.st == m.st.(fs := Do(m.st.fs, Create(job.Meta(), now)), active := m.st.active + {job.Meta()})
  {
    m' := Next(m, Describe(id, job.metaSuffix, job.meta, now));
  }

  lemma MetadataStage(m: Machine, id: nat, job: PutJob, body: seq<Byte>, now: int) returns (m': Machine)
    requires id in m.flights && m.flights[id] == Described(job, body, false)
    ensures Steps(m, WriteMetadata(id, now), m') && m'.history == m.history
    ensures m'.flights == m.flights[id := Described(job, body, true)]
    ensures m'.st == m.st.(fs := Do(m.st.fs, Encode(job.Meta(), job.meta, now)))
  {
    m' := Next(m, WriteMetadata(id, now));
  }

  lemma CommitStage(m: Machine, id: nat, job: PutJob, body: seq<Byte>, f: CommitFaults) returns (m': Machine)
    requires id in m.flights && m.flights[id] == Described(job, body, true) && !f.refused
    ensures Steps(m, Finish(Committing(id, f)), m')
    ensures m'.history == m.history + CommitEvents(m.st.fs, job, body, f)
    ensures m'.lostBytes == m.lostBytes + (if Loses(m.st.fs, job, f) then PreviousOf(m.st.fs, job.key).bytes else 0)
    ensures m'.flights == m.flights[id := Closing([job.Meta(), job.BodyFile()])]
    ensures m'.st == AfterCommit(m.st, job, f)
  {
    m' := Next(m, Finish(Committing(id, f)));
  }

  lemma UnwindStage(m: Machine, id: nat, unlinkFails: bool) returns (m': Machine)
    requires id in m.flights && m.flights[id].Closing? && m.flights[id].temps != []
    ensures Steps(m, Unwind(id, unlinkFails), m')
    ensures m'.history == m.history && m'.lostBytes == m.lostBytes
    ensures m'.flights == Unwound(m.flights, id) && m'.st == Forgotten(m.st, m.flights[id].temps[0], unlinkFails)
  {
    m' := Next(m, Unwind(id, unlinkFails));
  }

  /** The run takes step l first and goes on with rest. */
  ghost predicate Leads(m: Machine, l: Label, rest: seq<Label>, m': Machine) {
    Enabled(m, l) && Runs(Next(m, l), rest, m')
  }

  lemma FirstStep(m: Machine, l: Label, rest: seq<Label>, m': Machine)
    ensures Runs(m, [l] + rest, m') == Leads(m, l, rest, m')
  {
    assert ([l] + rest)[1..] == rest;
  }

  lemma FirstAndRest(a: seq<Label>, b: seq<Label>)
    requires a != []
    ensures a == [a[0]] + a[1..] && a + b == [a[0]] + (a[1..] + b)
  {
  }

  lemma {:induction false} RunsConcat(m: Machine, a: seq<Label>, b: seq<Label>, mid: Machine, last: Machine)
    requires Runs(m, a, mid) && Runs(mid, b, last)
    ensures Runs(m, a + b, last)
    decreases a
  {
    if a == [] {
      assert a + b == b;
    } else {
      FirstAndRest(a, b);
      FirstStep(m, a[0], a[1..], mid);
      RunsConcat(Next(m, a[0]), a[1..], b, mid, last);
      FirstStep(m, a[0], a[1..] + b, last);
    }
  }

  lemma OneStep(m: Machine, l: Label, m': Machine)
    requires Steps(m, l, m')
    ensures Runs(m, [l], m')
  {
    assert [l][1..] == [];
  }

  lemma TwoSteps(m: Machine, k: Label, mid: Machine, l: Label, m': Machine)
    requires Steps(m, k, mid) && Steps(mid, l, m')
    ensures Runs(m, [k, l], m')
  {
    OneStep(m, k, mid);
    OneStep(mid, l, m');
    RunsConcat(m, [k], [l], mid, m');
    assert [k] + [l] == [k, l];
  }

  function SpoolLabels(id: nat, key: Key, suffix: string, body: seq<Byte>, now: int): seq<Label> {
    [Begin(id, key, suffix, now), Write(id, body, now)]
  }

  function DescribeLabels(id: nat, job: PutJob, now: int): seq<Label> {
    [Describe(id, job.metaSuffix, job.meta, now), WriteMetadata(id, now)]
  }

  function PrepareLabels(id: nat, job: PutJob, body: seq<Byte>, now: int): seq<Label> {
    SpoolLabels(id, job.key, job.bodySuffix, body, now) + DescribeLabels(id, job, now)
  }

  function CloseLabels(id: nat, f: CommitFaults, metaUnlinkFails: bool, bodyUnlinkFails: bool): seq<Label> {
    [Finish(Committing(id, f)), Unwind(id, metaUnlinkFails)] + [Unwind(id, bodyUnlinkFails)]
  }

  /** The labels of one put, from its first temporary file to its last clean-up. */
  function PutLabels(id: nat, job: PutJob, body: seq<Byte>, now: int, f: CommitFaults,
                     metaUnlinkFails: bool, bodyUnlinkFails: bool): seq<Label> {
    PrepareLabels(id, job, body, now) + CloseLabels(id, f, metaUnlinkFails, bodyUnlinkFails)
  }

  /** The body reaches its temporary file. */
  lemma PutSpools(m: Machine, id: nat, key: Key, suffix: string, metaSuffix: string,
                  body: seq<Byte>, now: int) returns (m': Machine)
    requires CanBegin(m, id, key, suffix, metaSuffix)
    ensures Runs(m, SpoolLabels(id, key, suffix, body, now), m')
    ensures m'.history == m.history && m'.flights == m.flights[id := Spooling(key, suffix, body)]
    ensures m'.st == Spooled(m.st, BodyTemp(suffix), body, now)
    ensures MetaTemp(metaSuffix) !in m'.st.fs.names && MetaTemp(metaSuffix) !in m'.st.active
  {
    var mid := BeginStage(m, id, key, suffix, metaSuffix, now);
    m' := WriteStage(mid, id, body, now);
    assert [] + body == body;
    TwoSteps(m, Begin(id, key, suffix, now), mid, Write(id, body, now), m');
  }

  /** The metadata reaches its own. */
  lemma PutDescribes(m: Machine, id: nat, job: PutJob, body: seq<Byte>, now: int) returns (m': Machine)
    requires id in m.flights && m.flights[id] == Spooling(job.key, job.bodySuffix, body) && Describes(job, body)
    requires job.Meta() !in m.st.fs.names && job.Meta() !in m.st.active
    ensures Runs(m, DescribeLabels(id, job, now), m')
    ensures m'.history == m.history && m'.flights == m.flights[id := Described(job, body, true)]
    ensures m'.st == Prepared(m.st, job, now)
  {
    var mid := DescribeStage(m, id, job, body, now);
    m' := MetadataStage(mid, id, job, body, now);
    TwoSteps(m, Describe(id, job.metaSuffix, job.meta, now), mid, WriteMetadata(id, now), m');
  }

  lemma PutPrepares(m: Machine, id: nat, job: PutJob, body: seq<Byte>, now: int) returns (m': Machine)
    requires CanBegin(m, id, job.key, job.bodySuffix, job.metaSuffix) && Describes(job, body)
    ensures Runs(m, PrepareLabels(id, job, body, now), m')
    ensures m'.history == m.history && m'.flights == m.flights[id := Described(job, body, true)]
    ensures m'.st == Prepared(Spooled(m.st, job.BodyFile(), body, now), job, now)
  {
    var mid := PutSpools(m, id, job.key, job.bodySuffix, job.metaSuffix, body, now);
    m' := PutDescribes(mid, id, job, body, now);
    RunsConcat(m, SpoolLabels(id, job.key, job.bodySuffix, body, now), DescribeLabels(id, job, now), mid, m');
  }

  /** The commit region, and the two deferred clean-ups. */
  lemma PutCloses(m: Machine, id: nat, job: PutJob, body: seq<Byte>, f: CommitFaults,
                  metaUnlinkFails: bool, bodyUnlinkFails: bool) returns (m': Machine)
    requires id in m.flights && m.flights[id] == Described(job, body, true) && !f.refused
    ensures Runs(m, CloseLabels(id, f, metaUnlinkFails, bodyUnlinkFails), m')
    ensures m'.history == m.history + CommitEvents(m.st.fs, job, body, f)
    ensures m'.lostBytes == m.lostBytes + (if Loses(m.st.fs, job, f) then PreviousOf(m.st.fs, job.key).bytes else 0)
    ensures m'.flights == m.flights - {id} && m'.st == Closed(m.st, job, f, metaUnlinkFails, bodyUnlinkFails)
  {
    var committed := CommitStage(m, id, job, body, f);
    var half := UnwindStage(committed, id, metaUnlinkFails);
    assert committed.flights[id].temps[1..] == [job.BodyFile()];
    m' := UnwindStage(half, id, bodyUnlinkFails);
    TwoSteps(m, Finish(Committing(id, f)), committed, Unwind(id, metaUnlinkFails), half);
    OneStep(half, Unwind(id, bodyUnlinkFails), m');
    RunsConcat(m, [Finish(Committing(id, f)), Unwind(id, metaUnlinkFails)], [Unwind(id, bodyUnlinkFails)], half, m');
  }

  lemma BackAgain(flights: map<nat, Flight>, id: nat, g: Flight)
    requires id !in flights
    ensures flights[id := g] - {id} == flights
  {
  }

  /** A put of the store class is a run of the machine: its state after the last deferred clean-up is
      the one the machine reaches with the labels of the put, whatever fails in its commit and after. */
  lemma PutIsRun(m: Machine, id: nat, job: PutJob, body: seq<Byte>, now: int, f: CommitFaults,
                 metaUnlinkFails: bool, bodyUnlinkFails: bool) returns (m': Machine)
    requires CanBegin(m, id, job.key, job.bodySuffix, job.metaSuffix) && Describes(job, body) && !f.refused
    ensures Runs(m, PutLabels(id, job, body, now, f, metaUnlinkFails, bodyUnlinkFails), m')
    ensures var ready := Prepared(Spooled(m.st, job.BodyFile(), body, now), job, now);
            && m'.st == Closed(ready, job, f, metaUnlinkFails, bodyUnlinkFails) && m'.flights == m.flights
            && m'.history == m.history + CommitEvents(ready.fs, job, body, f)
  {
    var mid := PutPrepares(m, id, job, body, now);
    m' := PutCloses(mid, id, job, body, f, metaUnlinkFails, bodyUnlinkFails);
    RunsConcat(m, PrepareLabels(id, job, body, now), CloseLabels(id, f, metaUnlinkFails, bodyUnlinkFails), mid, m');
    BackAgain(m.flights, id, mid.flights[id]);
  }

  /** So is a put that gives up after spooling, as every put does whose verifier rejected the body: its
      run describes nothing, so that no later state can serve what was rejected. */
  lemma RejectedPutIsRun(m: Machine, id: nat, key: Key, suffix: string, cached: seq<Byte>, now: int, unlinkFails: bool)
    returns (m': Machine)
    requires Enabled(m, Begin(id, key, suffix, now))
    ensures Runs(m, SpoolLabels(id, key, suffix, cached, now) + [GiveUp(id), Unwind(id, unlinkFails)], m')
    ensures m'.st == Forgotten(Spooled(m.st, BodyTemp(suffix), cached, now), BodyTemp(suffix), unlinkFails)
    ensures m'.offered == m.offered && m'.history == m.history && m'.flights == m.flights
  {
    var spooling := Next(m, Begin(id, key, suffix, now));
    var written := Next(spooling, Write(id, cached, now));
    var closing := Next(written, GiveUp(id));
    m' := Next(closing, Unwind(id, unlinkFails));
    TwoSteps(m, Begin(id, key, suffix, now), spooling, Write(id, cached, now), written);
    TwoSteps(written, GiveUp(id), closing, Unwind(id, unlinkFails), m');
    RunsConcat(m, SpoolLabels(id, key, suffix, cached, now), [GiveUp(id), Unwind(id, unlinkFails)], written, m');
    BackAgain(m.flights, id, closing.flights[id]);
  }

  lemma ServesItsHistory(m: Machine, start: map<Key, Entry>)
    requires Inv(m, start)
    ensures View(m.st.fs) == Replay(start, m.history)
  {
    assert Steady(m, start);
  }

  lemma StoredIsServed(m: Machine, m': Machine, start: map<Key, Entry>, e: Event)
    requires Inv(m, start) && Inv(m', start) && m'.history == m.history + [e]
    ensures View(m'.st.fs) == Apply(View(m.st.fs), e)
  {
    ServesItsHistory(m, start);
    ServesItsHistory(m', start);
    ReplayStep(start, m.history, e);
  }

  /** From every reachable state, whatever else is in flight, a put with fresh suffixes can run to its
      end, and then its key serves exactly its entry, every other key what it served before, and
      every other put is where it was. */
  lemma PutCanComplete(m: Machine, start: map<Key, Entry>, id: nat, job: PutJob, body: seq<Byte>, now: int)
    returns (m': Machine)
    requires Inv(m, start) && CanBegin(m, id, job.key, job.bodySuffix, job.metaSuffix) && Describes(job, body)
    ensures Runs(m, PutLabels(id, job, body, now, NO_FAULTS, false, false), m')
    ensures View(m'.st.fs) == View(m.st.fs)[job.key := Entry(job.meta, body)] && m'.flights == m.flights
  {
    m' := PutIsRun(m, id, job, body, now, NO_FAULTS, false, false);
    RunKeepsInv(m, PutLabels(id, job, body, now, NO_FAULTS, false, false), m', start);
    StoredIsServed(m, m', start, Stored(job.key, Entry(job.meta, body)));
  }

  // ---------------------------------------------------------------- a put can lose an entry

  lemma {:induction false} RunDraws(m: Machine, ls: seq<Label>, m': Machine, s: string)
    requires Runs(m, ls, m') && s !in m.used && forall i :: 0 <= i < |ls| && ls[i].Begin? ==> ls[i].suffix != s
    ensures s !in m'.used
    decreases ls
  {
    if ls != [] { RunDraws(Next(m, ls[0]), ls[1..], m', s); }
  }

  predicate Quiet(ls: seq<Label>) { forall i :: 0 <= i < |ls| ==> !ls[i].Finish? && !ls[i].Crash? }

  /** Only locked regions and restarts lose anything. */
  lemma {:induction false} QuietRun(m: Machine, ls: seq<Label>, m': Machine)
    requires Runs(m, ls, m') && Quiet(ls)
    ensures m'.lostBytes == m.lostBytes
    decreases ls
  {
    if ls != [] {
      StepLoss(m, ls[0]);
      QuietRun(Next(m, ls[0]), ls[1..], m');
    }
  }

  lemma PreparingIsQuiet(id: nat, job: PutJob, body: seq<Byte>, now: int)
    ensures Quiet(PrepareLabels(id, job, body, now))
  {
  }

  lemma SameHistorySameView(m: Machine, ls: seq<Label>, m': Machine, start: map<Key, Entry>)
    requires Inv(m, start) && Runs(m, ls, m') && m'.history == m.history
    ensures View(m'.st.fs) == View(m.st.fs)
  {
    RunKeepsInv(m, ls, m', start);
    ServesItsHistory(m, start);
    ServesItsHistory(m', start);
  }

  /** The commit of a prepared put that replaces an entry, failing in the fallback. */
  lemma LosingClose(m: Machine, id: nat, job: PutJob, body: seq<Byte>) returns (m': Machine)
    requires id in m.flights && m.flights[id] == Described(job, body, true) && job.key in View(m.st.fs)
    ensures Runs(m, CloseLabels(id, FALLBACK_FAILS, false, false), m')
    ensures m'.history == m.history + [Dropped(job.key)]
    ensures m'.lostBytes == m.lostBytes + |View(m.st.fs)[job.key].body|
  {
    PreviousIsEntry(m.st.fs, job.key);
    m' := PutCloses(m, id, job, body, FALLBACK_FAILS, false, false);
  }

  /** From every reachable state, a put that replaces an entry and fails in the fallback loses the
      entry, and the counters stand above the scan by its size from then on. */
  lemma PutCanLose(m: Machine, start: map<Key, Entry>, id: nat, job: PutJob, body: seq<Byte>, now: int)
    returns (m': Machine)
    requires Inv(m, start) && CanBegin(m, id, job.key, job.bodySuffix, job.metaSuffix)
    requires Describes(job, body) && job.key in View(m.st.fs)
    ensures Runs(m, PutLabels(id, job, body, now, FALLBACK_FAILS, false, false), m')
    ensures View(m'.st.fs) == View(m.st.fs) - {job.key}
    ensures m'.lostBytes == m.lostBytes + |View(m.st.fs)[job.key].body|
  {
    var front := PrepareLabels(id, job, body, now);
    var mid := PutPrepares(m, id, job, body, now);
    PreparingIsQuiet(id, job, body, now);
    QuietRun(m, front, mid);
    SameHistorySameView(m, front, mid, start);
    m' := LosingClose(mid, id, job, body);
    RunsConcat(m, front, CloseLabels(id, FALLBACK_FAILS, false, false), mid, m');
    RunKeepsInv(m, PutLabels(id, job, body, now, FALLBACK_FAILS, false, false), m', start);
    StoredIsServed(m, m', start, Dropped(job.key));
  }

  lemma NextPutCanBegin(m: Machine, start: map<Key, Entry>, ls: seq<Label>, m': Machine, id: nat, job: PutJob)
    requires Inv(m, start) && Runs(m, ls, m') && m.leftover == {} && m'.flights == map[]
    requires forall i :: 0 <= i < |ls| ==> LeavesNothing(ls[i])
    requires job.bodySuffix !in m.used && forall i :: 0 <= i < |ls| && ls[i].Begin? ==> ls[i].suffix != job.bodySuffix
    requires '/' !in job.key && '/' !in job.bodySuffix
    ensures CanBegin(m', id, job.key, job.bodySuffix, job.metaSuffix)
  {
    NoTempsRemain(m, ls, m', start);
    RunDraws(m, ls, m', job.bodySuffix);
    assert job.BodyFile() !in TempNames(m'.st.fs) && job.Meta() !in TempNames(m'.st.fs);
  }

  lemma PutLabelsAreTidy(id: nat, job: PutJob, body: seq<Byte>, now: int, f: CommitFaults)
    ensures var ls := PutLabels(id, job, body, now, f, false, false);
            forall i :: 0 <= i < |ls| ==> LeavesNothing(ls[i]) && (ls[i].Begin? ==> ls[i].suffix == job.bodySuffix)
  {
  }

  /** What a second put of the same key needs of the first. */
  ghost predicate Follows(m: Machine, first: PutJob, second: PutJob) {
    second.key == first.key && second.bodySuffix !in m.used + {first.bodySuffix} && '/' !in second.bodySuffix
  }

  lemma FirstPutEnds(m: Machine, start: map<Key, Entry>, id: nat, first: PutJob, second: PutJob, body: seq<Byte>,
                     now: int)
    returns (m': Machine)
    requires Inv(m, start) == true && m.flights == map[] && m.leftover == {} && Follows(m, first, second)
    requires CanBegin(m, id, first.key, first.bodySuffix, first.metaSuffix) == true && Describes(first, body)
    ensures Runs(m, PutLabels(id, first, body, now, NO_FAULTS, false, false), m') == true && Inv(m', start) == true
    ensures CanBegin(m', id, second.key, second.bodySuffix, second.metaSuffix) == true
    ensures second.key in View(m'.st.fs) && View(m'.st.fs)[second.key].body == body
  {
    var ls := PutLabels(id, first, body, now, NO_FAULTS, false, false);
    assert '/' !in first.key by { assert CanBegin(m, id, first.key, first.bodySuffix, first.metaSuffix); }
    m' := PutCanComplete(m, start, id, first, body, now);
    PutLabelsAreTidy(id, first, body, now, NO_FAULTS);
    NextPutCanBegin(m, start, ls, m', id, second);
    RunKeepsInv(m, ls, m', start);
  }

  /** Two puts of one key, one after the other, the second failing in the fallback. */
  lemma SecondPutCanLose(m: Machine, start: map<Key, Entry>, id: nat, first: PutJob, second: PutJob, body: seq<Byte>,
                         now: int)
    returns (ls: seq<Label>, m': Machine)
    requires Inv(m, start) && m.flights == map[] && m.leftover == {} && Follows(m, first, second) && body != []
    requires CanBegin(m, id, first.key, first.bodySuffix, first.metaSuffix)
    requires Describes(first, body) && Describes(second, body)
    ensures Runs(m, ls, m') && m'.lostBytes > 0
  {
    var storing := PutLabels(id, first, body, now, NO_FAULTS, false, false);
    var losing := PutLabels(id, second, body, now, FALLBACK_FAILS, false, false);
    var mid := FirstPutEnds(m, start, id, first, second, body, now);
    m' := PutCanLose(mid, start, id, second, body, now);
    RunsConcat(m, storing, losing, mid, m');
    ls := storing + losing;
  }

  // ---------------------------------------------------------------- the empty directory

  /** An empty directory is a start, so none of the results above is about nothing. */
  lemma EmptyDirectoryBoots(fs: FS)
    requires Wf(fs) && fs.names == map[]
    ensures PublishedOk(fs, {}) && View(fs) == map[] && Inv(Boot(fs, {}), View(fs))
  {
    forall k ensures NamedSuffix(fs, k) == None {
    }
    assert View(fs) == map[] by { forall k ensures k !in View(fs) { ViewIsGet(fs, k); } }
    BootHasInv(fs, {});
  }

  lemma EmptyDirectoryTakesPuts(fs: FS, id: nat, job: PutJob)
    requires fs.names == map[] && '/' !in job.key && '/' !in job.bodySuffix
    ensures var boot := Boot(fs, {});
            CanBegin(boot, id, job.key, job.bodySuffix, job.metaSuffix)
            && boot.flights == map[] && boot.leftover == {} && boot.used == {}
  {
  }

  /** The loss happens in a run from every empty directory: two puts of one key, the second failing
      in the fallback, leave the byte counter above the scan. */
  lemma LossIsReachable(fs: FS, id: nat, first: PutJob, second: PutJob, body: seq<Byte>, now: int)
    returns (ls: seq<Label>, m: Machine)
    requires Wf(fs) && fs.names == map[] && body != []
    requires '/' !in first.key && '/' !in first.bodySuffix && '/' !in second.bodySuffix
    requires second.key == first.key && second.bodySuffix != first.bodySuffix
    requires Describes(first, body) && Describes(second, body)
    ensures Runs(Boot(fs, {}), ls, m) && m.lostBytes > 0 && m.st.bytes > ViewBytes(View(m.st.fs))
  {
    EmptyDirectoryBoots(fs);
    EmptyDirectoryTakesPuts(fs, id, first);
    ls, m := SecondPutCanLose(Boot(fs, {}), View(fs), id, first, second, body, now);
    StoreRefinesMap(fs, {}, ls, m);
  }
}
