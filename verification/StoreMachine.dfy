/** Every interleaving of puts, lookups, collections and clean-ups on one store, with crashes
    between any two syscalls. A step is one region under the store's lock, or one syscall
    outside it. The machine refines a plain map of last stored entries. */
module StoreMachine {
  import opened Basics
  import opened FileSystem
  import opened StoreSpec
  import opened PutSpec

  // ---------------------------------------------------------------- the map being refined

  datatype Event = Stored(key: Key, entry: Entry) | Dropped(key: Key)

  function Apply(v: map<Key, Entry>, e: Event): map<Key, Entry> {
    match e
    case Stored(k, entry) => v[k := entry]
    case Dropped(k) => v - {k}
  }

  function Replay(start: map<Key, Entry>, h: seq<Event>): map<Key, Entry> {
    if h == [] then start else Apply(Replay(start, h[..|h| - 1]), h[|h| - 1])
  }

  lemma ReplayStep(start: map<Key, Entry>, h: seq<Event>, e: Event)
    ensures Replay(start, h + [e]) == Apply(Replay(start, h), e)
  {
    assert (h + [e])[..|h|] == h;
  }

  /** The entry was stored at i and nothing happened to its key since. */
  predicate LastStored(h: seq<Event>, i: nat, k: Key, e: Entry) {
    i < |h| && h[i] == Stored(k, e) && forall j :: i < j < |h| ==> h[j].key != k
  }

  /** A key is served exactly the last entry stored for it and not dropped since. */
  lemma {:induction false} ReplayIsLastStored(start: map<Key, Entry>, h: seq<Event>, k: Key, e: Entry)
    ensures k in Replay(start, h) && Replay(start, h)[k] == e <==>
              || (exists i: nat :: LastStored(h, i, k, e))
              || (k in start && start[k] == e && forall j :: 0 <= j < |h| ==> h[j].key != k)
    decreases |h|
  {
    if h != [] {
      var n := |h| - 1;
      var front := h[..n];
      ReplayIsLastStored(start, front, k, e);
      if h[n].key == k {
        if h[n] == Stored(k, e) { assert LastStored(h, n, k, e); }
      } else {
        forall i: nat | LastStored(front, i, k, e)
          ensures LastStored(h, i, k, e)
        {
        }
        forall i: nat | LastStored(h, i, k, e)
          ensures LastStored(front, i, k, e)
        {
        }
      }
    }
  }

  // ---------------------------------------------------------------- states

  /** A put between its first temporary file and its last deferred clean-up. */
  datatype Flight =
    | Spooling(key: Key, suffix: string, cached: seq<Byte>)
    | Described(job: PutJob, body: seq<Byte>, written: bool)
    | Closing(temps: seq<Path>)
  {
    /** Names of temporary files the put has registered as in use. */
    function Holds(): set<Path> {
      match this
      case Spooling(_, s, _) => {BodyTemp(s)}
      case Described(job, _, _) => {job.BodyFile(), job.Meta()}
      case Closing(temps) => set p | p in temps
    }

    /** The suffix a commit would still publish. */
    function Suffixes(): set<string> {
      match this
      case Spooling(_, s, _) => {s}
      case Described(job, _, _) => {job.bodySuffix}
      case Closing(_) => {}
    }
  }

  /** A candidate as collection remembers it, with the entry it was taken from. */
  datatype Sighting = Sighting(candidate: Candidate, entry: Entry)

  /** used: suffixes ever drawn; published: those a body was ever renamed to; offered: entries puts
      have prepared; leftover: temporary files whose removal failed or that a crash left behind;
      lostBytes, lostObjects: entries that replace's fallback took from the view but not from the
      counters, since the last scan. */
  datatype Machine = Machine(
    st: StoreState, flights: map<nat, Flight>, used: set<string>, published: set<string>,
    offered: set<Event>, seen: set<Sighting>, history: seq<Event>,
    lostBytes: nat, lostObjects: nat, leftover: set<Path>)

  datatype Region =
    | Idle
    | Committing(id: nat, faults: CommitFaults)
    | Evicting(candidate: Candidate, bodyFails: bool, metaFails: bool)
    | Collecting(key: Key, cutoff: int, bodyFails: bool, metaFails: bool)

  datatype Label =
    | Begin(id: nat, key: Key, suffix: string, now: int)
    | Write(id: nat, bytes: seq<Byte>, now: int)
    | Describe(id: nat, metaSuffix: string, meta: Metadata, now: int)
    | WriteMetadata(id: nat, now: int)
    | GiveUp(id: nat)
    | Finish(region: Region)
    | Unwind(id: nat, unlinkFails: bool)
    | Observe(key: Key)
    | Touch(key: Key, now: int)
    | CleanTemp(path: Path)
    | Crash(region: Region, n: nat)

  // ---------------------------------------------------------------- locked regions

  /** The key a region works on and, for a commit, what it publishes. */
  datatype Change = Change(key: Key, put: Option<PutJob>, body: seq<Byte>)

  predicate RegionEnabled(m: Machine, r: Region) {
    match r
    case Committing(id, f) => id in m.flights && m.flights[id].Described? && m.flights[id].written && !f.refused
    case Evicting(c, _, _) => exists x :: x in m.seen && x.candidate == c
    case _ => true
  }

  function ChangeOf(m: Machine, r: Region): Change
    requires RegionEnabled(m, r)
  {
    match r
    case Idle => Change("", None, [])
    case Committing(id, _) => Change(m.flights[id].job.key, Some(m.flights[id].job), m.flights[id].body)
    case Evicting(c, _, _) => Change(c.key, None, [])
    case Collecting(k, _, _, _) => Change(k, None, [])
  }

  function RegionActs(m: Machine, r: Region): seq<Action>
    requires RegionEnabled(m, r)
  {
    match r
    case Idle => []
    case Committing(id, f) => CommitActs(m.st.fs, m.flights[id].job, f)
    case Evicting(c, bodyFails, metaFails) => RemoveActs(m.st.fs, c, bodyFails, metaFails)
    case Collecting(k, cutoff, bodyFails, metaFails) => CollectActs(m.st.fs, k, cutoff, bodyFails, metaFails)
  }

  function RegionState(m: Machine, r: Region): StoreState
    requires RegionEnabled(m, r)
  {
    match r
    case Idle => m.st
    case Committing(id, f) => AfterCommit(m.st, m.flights[id].job, f)
    case Evicting(c, bodyFails, metaFails) => AfterRemoval(m.st, c, bodyFails, metaFails)
    case Collecting(k, cutoff, bodyFails, metaFails) => AfterCollection(m.st, k, cutoff, bodyFails, metaFails)
  }

  /** The region is a commit whose fallback loses the entry it was to replace. */
  predicate LosesEntry(m: Machine, r: Region)
    requires RegionEnabled(m, r)
  {
    r.Committing? && Loses(m.st.fs, m.flights[r.id].job, r.faults)
  }

  /** What a completed region means for the map: a commit that reports success stores the put's
      entry; one that fails stores nothing, and drops the key if its fallback lost the entry; a
      removal drops its key. */
  function RegionEvents(m: Machine, r: Region): seq<Event>
    requires RegionEnabled(m, r)
  {
    match r
    case Idle => []
    case Committing(id, f) =>
      var job := m.flights[id].job;
      if CommitOk(m.st.fs, job, f) then [Stored(job.key, Entry(job.meta, m.flights[id].body))]
      else if LosesEntry(m, r) then [Dropped(job.key)] else []
    case Evicting(c, bodyFails, _) => if WillRemove(m.st.fs, c, bodyFails) then [Dropped(c.key)] else []
    case Collecting(k, cutoff, bodyFails, _) =>
      if Judge(m.st.fs, k, cutoff).Expired? && !bodyFails then [Dropped(k)] else []
  }

  /** What an interrupted region means for the map: whatever became of its key. */
  function CrashEvents(before: FS, after: FS, k: Key): seq<Event> {
    if Get(before, k) == Get(after, k) then []
    else match Get(after, k) case Some(e) => [Stored(k, e)] case None => [Dropped(k)]
  }

  // ---------------------------------------------------------------- steps

  ghost predicate Enabled(m: Machine, l: Label) {
    match l
    case Begin(id, key, suffix, _) =>
      id !in m.flights && '/' !in key && '/' !in suffix && suffix !in m.used && BodyTemp(suffix) !in m.st.fs.names
    case Write(id, _, _) => id in m.flights && m.flights[id].Spooling?
    case Describe(id, metaSuffix, meta, _) =>
      && id in m.flights && m.flights[id].Spooling?
      && MetaTemp(metaSuffix) !in m.st.fs.names && MetaTemp(metaSuffix) !in m.st.active
      && meta.bodyFile == GenerationName(m.flights[id].key, m.flights[id].suffix)
      && meta.contentBytes == |m.flights[id].cached|
    case WriteMetadata(id, _) => id in m.flights && m.flights[id].Described? && !m.flights[id].written
    case GiveUp(id) => id in m.flights && !m.flights[id].Closing?
    case Finish(r) => RegionEnabled(m, r)
    case Unwind(id, _) => id in m.flights && m.flights[id].Closing? && m.flights[id].temps != []
    case Observe(key) => Get(m.st.fs, key).Some?
    case Touch(key, _) => CurrentBody(m.st.fs, key).Some?
    case CleanTemp(path) => path.IsTemp() && path in m.st.fs.names && path !in m.st.active
    case Crash(r, n) => RegionEnabled(m, r) && n <= |RegionActs(m, r)|
  }

  function WithFS(m: Machine, fs: FS): Machine { m.(st := m.st.(fs := fs)) }

  ghost function Next(m: Machine, l: Label): Machine
    requires Enabled(m, l)
  {
    match l
    case Begin(id, key, suffix, now) =>
      m.(st := m.st.(fs := Do(m.st.fs, Create(BodyTemp(suffix), now)), active := m.st.active + {BodyTemp(suffix)}),
         flights := m.flights[id := Spooling(key, suffix, [])], used := m.used + {suffix})
    case Write(id, bytes, now) =>
      var g := m.flights[id];
      WithFS(m, Do(m.st.fs, Append(BodyTemp(g.suffix), bytes, now)))
        .(flights := m.flights[id := g.(cached := g.cached + bytes)])
    case Describe(id, metaSuffix, meta, now) =>
      var g := m.flights[id];
      var job := PutJob(g.key, g.suffix, metaSuffix, meta);
      m.(st := m.st.(fs := Do(m.st.fs, Create(job.Meta(), now)), active := m.st.active + {job.Meta()}),
         flights := m.flights[id := Described(job, g.cached, false)],
         offered := m.offered + {Stored(g.key, Entry(meta, g.cached))})
    case WriteMetadata(id, now) =>
      var g := m.flights[id];
      WithFS(m, Do(m.st.fs, Encode(g.job.Meta(), g.job.meta, now))).(flights := m.flights[id := g.(written := true)])
    case GiveUp(id) =>
      m.(flights := m.flights[id := Closing(Unwinding(m.flights[id]))])
    case Finish(r) => Finished(m, r)
    case Unwind(id, unlinkFails) =>
      var temps := m.flights[id].temps;
      m.(st := Forgotten(m.st, temps[0], unlinkFails),
         flights := if |temps| == 1 then m.flights - {id} else m.flights[id := Closing(temps[1..])],
         leftover := if unlinkFails then m.leftover + {temps[0]} else m.leftover)
    case Observe(key) =>
      var e := Get(m.st.fs, key).value;
      m.(seen := m.seen + {Sighting(CandidateOf(m.st.fs, key, e), e)})
    case Touch(key, now) => WithFS(m, Do(m.st.fs, Chtimes(CurrentBody(m.st.fs, key).value, now)))
    case CleanTemp(path) => WithFS(m, Do(m.st.fs, Unlink(path)))
    case Crash(r, n) => Restarted(m, r, n)
  }

  /** Deferred clean-ups run in reverse order of registration. */
  function Unwinding(g: Flight): seq<Path>
    requires !g.Closing?
  {
    match g
    case Spooling(_, s, _) => [BodyTemp(s)]
    case Described(job, _, _) => [job.Meta(), job.BodyFile()]
  }

  function Publishes(m: Machine, r: Region): set<string>
    requires RegionEnabled(m, r)
  {
    if r.Committing? then {m.flights[r.id].job.bodySuffix} else {}
  }

  function Finished(m: Machine, r: Region): Machine
    requires RegionEnabled(m, r)
  {
    var lost := if LosesEntry(m, r) then PreviousOf(m.st.fs, m.flights[r.id].job.key).bytes else 0;
    m.(st := RegionState(m, r),
       flights := if r.Committing? then m.flights[r.id := Closing(Unwinding(m.flights[r.id]))] else m.flights,
       published := m.published + Publishes(m, r),
       history := m.history + RegionEvents(m, r),
       lostBytes := m.lostBytes + lost,
       lostObjects := m.lostObjects + (if LosesEntry(m, r) then 1 else 0))
  }

  /** A crash after n syscalls of a region, then New over what is on disk. */
  ghost function Restarted(m: Machine, r: Region, n: nat): Machine
    requires RegionEnabled(m, r) && n <= |RegionActs(m, r)|
  {
    var fs := Run(m.st.fs, RegionActs(m, r)[..n]);
    Machine(StoreState(fs, ViewBytes(View(fs)), |View(fs)|, {}), map[], m.used, m.published + Publishes(m, r),
            m.offered, {}, m.history + CrashEvents(m.st.fs, fs, ChangeOf(m, r).key), 0, 0, TempNames(fs))
  }
}
