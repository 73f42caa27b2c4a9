/** The body files on disk: those that are served, and orphans, which no lookup reaches, no counter
    counts and no collection removes. */
module Orphans {
  import opened Basics
  import opened Totals
  import opened FileSystem
  import opened StoreSpec
  import opened PutSpec
  import opened StoreMachine
  import opened StoreRuns

  // ---------------------------------------------------------------- bodies and their bytes

  function BodyLength(fs: FS, p: Path): nat {
    match At(fs, p) case Some(Bytes(b)) => |b| case _ => 0
  }

  function Bodies(fs: FS): set<Path> { set p | p in fs.names && p.IsBody() }

  /** The body its key is served from. */
  predicate Serves(fs: FS, p: Path) { p.IsBody() && CurrentBody(fs, p.key) == Some(p) }

  function OrphansOn(fs: FS): set<Path> { set p | p in fs.names && p.IsBody() && !Serves(fs, p) }

  function Lengths(fs: FS, ps: set<Path>): map<Path, nat> { map p | p in ps :: BodyLength(fs, p) }

  /** The bytes of all body files. */
  ghost function DiskBytes(fs: FS): nat { Total(Lengths(fs, Bodies(fs))) }

  ghost function OrphanBytes(fs: FS): nat { Total(Lengths(fs, OrphansOn(fs))) }

  lemma {:induction false} LengthsSplit(fs: FS, ps: set<Path>, qs: set<Path>)
    requires ps !! qs
    ensures Total(Lengths(fs, ps + qs)) == Total(Lengths(fs, ps)) + Total(Lengths(fs, qs))
    decreases |ps|
  {
    if ps == {} {
      assert ps + qs == qs;
    } else {
      var p :| p in ps;
      TotalRemove(Lengths(fs, ps), p);
      TotalRemove(Lengths(fs, ps + qs), p);
      assert Lengths(fs, ps) - {p} == Lengths(fs, ps - {p});
      assert Lengths(fs, ps + qs) - {p} == Lengths(fs, ps - {p} + qs);
      LengthsSplit(fs, ps - {p}, qs);
    }
  }

  lemma CurrentBodyIsThere(fs: FS, k: Key)
    requires k in View(fs)
    ensures CurrentBody(fs, k).Some?
    ensures var p := CurrentBody(fs, k).value;
            p in Bodies(fs) && Serves(fs, p) && p.key == k && BodyLength(fs, p) == |View(fs)[k].body|
  {
    ViewIsGet(fs, k);
  }

  ghost function ServingBodies(fs: FS): (f: map<Key, Path>)
    ensures f.Keys == View(fs).Keys
    ensures forall k :: k in f ==> f[k].IsBody() && f[k].key == k && Serves(fs, f[k])
                                   && f[k] in fs.names && BodyLength(fs, f[k]) == |View(fs)[k].body|
  {
    map k | k in View(fs) :: CurrentBodyIsThere(fs, k); CurrentBody(fs, k).value
  }

  lemma ServedBytes(fs: FS)
    ensures Total(Lengths(fs, Bodies(fs) - OrphansOn(fs))) == ViewBytes(View(fs))
  {
    var f, served := ServingBodies(fs), Bodies(fs) - OrphansOn(fs);
    forall p | p in served
      ensures p in f.Values
    {
      ViewIsGet(fs, p.key);
      assert f[p.key] == p;
    }
    TotalRename(Sizes(View(fs)), Lengths(fs, served), f);
  }

  /** Nothing on disk is missed: the bytes of all body files are those of the entries a lookup can
      serve and those of the orphans. */
  lemma DiskIsServedAndOrphans(fs: FS)
    ensures DiskBytes(fs) == ViewBytes(View(fs)) + OrphanBytes(fs)
  {
    var served := Bodies(fs) - OrphansOn(fs);
    ServedBytes(fs);
    LengthsSplit(fs, served, OrphansOn(fs));
    assert served + OrphansOn(fs) == Bodies(fs);
  }

  // ---------------------------------------------------------------- one body through one region

  lemma ServesDependsOnView(a: FS, b: FS, p: Path)
    requires p.IsBody()
    requires p.key in View(a) <==> p.key in View(b)
    requires p.key in View(a) ==> View(a)[p.key] == View(b)[p.key]
    ensures Serves(a, p) == Serves(b, p)
  {
    ViewIsGet(a, p.key);
    ViewIsGet(b, p.key);
  }

  /** Where all permanent files are the same, so are the orphans. */
  lemma SameOrphans(a: FS, b: FS)
    requires Wf(a) && Wf(b) && forall p: Path :: !p.IsTemp() ==> At(a, p) == At(b, p)
    ensures OrphansOn(a) == OrphansOn(b)
  {
    SameView(a, b);
    forall p: Path | p.IsBody()
      ensures p in OrphansOn(a) <==> p in OrphansOn(b)
    {
      NamedIffContent(a, p);
      NamedIffContent(b, p);
      ServesDependsOnView(a, b, p);
    }
  }

  lemma PlacedBodies(fs: FS, job: PutJob, p: Path)
    requires Wf(fs) && p.IsBody() && At(fs, job.BodyFile()).Some?
    ensures Wf(Run(fs, PlaceActs(job)))
    ensures At(Run(fs, PlaceActs(job)), p) == if p == job.Target() then At(fs, job.BodyFile()) else At(fs, p)
  {
    var place, date := Rename(job.BodyFile(), job.Target()), Chtimes(job.Target(), job.meta.storedAt);
    DoEffect(fs, place);
    DoEffect(Do(fs, place), date);
    Step2(fs, place, date, {});
  }

  lemma OneEffect(fs: FS, a: Action, p: Path)
    requires Wf(fs) && Legal(fs, a)
    ensures Wf(Run(fs, [a])) && At(Run(fs, [a]), p) == Effect(fs, a, p)
  {
    DoEffect(fs, a);
    Step1(fs, a, {});
  }

  lemma ReplacedBodies(fs: FS, present: bool, job: PutJob, f: CommitFaults, p: Path)
    requires Wf(fs) && p.IsBody()
    ensures var acts := ReplaceActs(present, job.Meta(), MetaFile(job.key), f);
            Wf(Run(fs, acts)) && At(Run(fs, acts), p) == At(fs, p)
  {
    var unlink, rename := Unlink(MetaFile(job.key)), Rename(job.Meta(), MetaFile(job.key));
    OneEffect(fs, unlink, p);
    OneEffect(fs, rename, p);
    OneEffect(Run(fs, [unlink]), rename, p);
    RunConcat(fs, [unlink], [rename]);
    assert [unlink] + [rename] == [unlink, rename];
  }

  lemma ClosedBodies(fs: FS, acts: seq<Action>, p: Path)
    requires Wf(fs) && |acts| <= 1 && forall a :: a in acts ==> a.Unlink?
    ensures Wf(Run(fs, acts)) && At(Run(fs, acts), p) == if acts == [Unlink(p)] then None else At(fs, p)
  {
    if acts != [] {
      assert acts == [acts[0]] && acts[0] in acts;
      OneEffect(fs, acts[0], p);
    }
  }

  /** What a commit does to one body file. */
  lemma CommittedBodies(fs: FS, job: PutJob, body: seq<Byte>, f: CommitFaults, p: Path)
    requires Ready(fs, job, body) && !f.renameBody && p.IsBody()
    ensures var r := Run(fs, CommitActs(fs, job, f));
            && Wf(r)
            && At(r, p) == if CloseActs(fs, job, f) == [Unlink(p)] then None
                           else if p == job.Target() then Some(Bytes(body)) else At(fs, p)
  {
    var close := CloseActs(fs, job, f);
    if f.setTime {
      var place := Rename(job.BodyFile(), job.Target());
      OneEffect(fs, place, p);
      ClosedBodies(Run(fs, [place]), close, p);
      RunConcat(fs, [place], close);
    } else {
      var placed := Run(fs, PlaceActs(job));
      var middle := ReplaceActs(MetaFile(job.key) in fs.names, job.Meta(), MetaFile(job.key), f);
      PlacedBodies(fs, job, p);
      ReplacedBodies(placed, MetaFile(job.key) in fs.names, job, f, p);
      ClosedBodies(Run(placed, middle), close, p);
      RunConcat(fs, PlaceActs(job), middle);
      RunConcat(fs, PlaceActs(job) + middle, close);
    }
  }

  // ---------------------------------------------------------------- what a commit leaves behind

  /** The body the replaced metadata named, if it exists. */
  function Superseded(fs: FS, k: Key): set<Path> {
    match PreviousOf(fs, k).path case Some(p) => {p} * fs.names.Keys case None => {}
  }

  /** The old body stays if it cannot be unlinked, the new one if a failed commit cannot unlink it,
      and a lost entry's body is never unlinked. */
  function CommitLeaks(fs: FS, job: PutJob, f: CommitFaults): set<Path> {
    if CommitOk(fs, job, f) then (if f.removePrevious then Superseded(fs, job.key) else {})
    else (if !f.renameBody && f.removeTarget then {job.Target()} else {})
         + (if FallbackLoses(f) then Superseded(fs, job.key) else {})
  }

  function CommitRetires(fs: FS, job: PutJob, f: CommitFaults): set<Path> {
    if CommitOk(fs, job, f) && !f.removePrevious then Superseded(fs, job.key) else {}
  }

  lemma CommitOrphanElsewhere(fs: FS, job: PutJob, body: seq<Byte>, f: CommitFaults, p: Path)
    requires Ready(fs, job, body) && !f.refused && !f.renameBody && p.IsBody() && p.key != job.key
    ensures p in OrphansOn(Run(fs, CommitActs(fs, job, f))) <==> p in OrphansOn(fs)
  {
    var r := Run(fs, CommitActs(fs, job, f));
    CommittedBodies(fs, job, body, f, p);
    NamedIffContent(fs, p);
    NamedIffContent(r, p);
    CommitIsAtomic(fs, job, body, f);
    UnrefusedView(fs, job, body, f);
    ServesDependsOnView(fs, r, p);
  }

  /** The body a key is served from is the one its metadata names, if the entry is complete. */
  lemma CurrentIsPrevious(fs: FS, k: Key)
    ensures CurrentBody(fs, k) == if PreviousOf(fs, k).valid then PreviousOf(fs, k).path else None
    ensures PreviousOf(fs, k).path.Some? ==>
              PreviousOf(fs, k).path.value.IsBody() && PreviousOf(fs, k).path.value.key == k
  {
  }

  lemma CurrentAfterCommit(fs: FS, job: PutJob, body: seq<Byte>, f: CommitFaults)
    requires Ready(fs, job, body) && !f.refused
    ensures CurrentBody(Run(fs, CommitActs(fs, job, f)), job.key)
         == if CommitOk(fs, job, f) then Some(job.Target())
            else if FallbackLoses(f) then None else CurrentBody(fs, job.key)
  {
    var r := Run(fs, CommitActs(fs, job, f));
    CommitIsAtomic(fs, job, body, f);
    UnrefusedView(fs, job, body, f);
    GenerationRoundTrip(job.key, job.bodySuffix, job.meta);
    ViewIsGet(fs, job.key);
    ViewIsGet(r, job.key);
  }

  lemma CommitOrphanHere(fs: FS, job: PutJob, body: seq<Byte>, f: CommitFaults, p: Path)
    requires Ready(fs, job, body) && !f.refused && !f.renameBody && p.IsBody() && p.key == job.key
    ensures p in OrphansOn(Run(fs, CommitActs(fs, job, f))) <==>
              p in OrphansOn(fs) - CommitRetires(fs, job, f) + CommitLeaks(fs, job, f)
  {
    var r := Run(fs, CommitActs(fs, job, f));
    CommittedBodies(fs, job, body, f, p);
    NamedIffContent(fs, p);
    NamedIffContent(r, p);
    CurrentAfterCommit(fs, job, body, f);
    CurrentIsPrevious(fs, job.key);
  }

  /** The orphans after a commit, exactly. */
  lemma CommitOrphans(fs: FS, job: PutJob, body: seq<Byte>, f: CommitFaults)
    requires Ready(fs, job, body) && !f.refused
    ensures OrphansOn(Run(fs, CommitActs(fs, job, f)))
         == OrphansOn(fs) - CommitRetires(fs, job, f) + CommitLeaks(fs, job, f)
  {
    if !f.renameBody {
      var r := Run(fs, CommitActs(fs, job, f));
      CurrentIsPrevious(fs, job.key);
      forall p: Path | p.IsBody()
        ensures p in OrphansOn(r) <==> p in OrphansOn(fs) - CommitRetires(fs, job, f) + CommitLeaks(fs, job, f)
      {
        if p.key == job.key {
          CommitOrphanHere(fs, job, body, f, p);
        } else {
          CommitOrphanElsewhere(fs, job, body, f, p);
        }
      }
    }
  }

  // ---------------------------------------------------------------- removals leave nothing behind

  lemma EvictedBodies(fs: FS, k: Key, body: Path, bodyFails: bool, metaFails: bool, p: Path)
    requires Wf(fs) && p.IsBody()
    ensures var r := Run(fs, EvictActs(k, body, bodyFails, metaFails));
            Wf(r) && At(r, p) == if !bodyFails && p == body then None else At(fs, p)
  {
    var a, b := Unlink(body), Unlink(MetaFile(k));
    OneEffect(fs, a, p);
    OneEffect(Run(fs, [a]), b, p);
    RunConcat(fs, [a], [b]);
    assert [a] + [b] == [a, b];
  }

  /** The body goes first, so that an interrupted removal leaves no orphan either. */
  lemma EvictOrphans(fs: FS, k: Key, e: Entry, body: Path, bodyFails: bool, metaFails: bool)
    requires Wf(fs) && Get(fs, k) == Some(e) && BodyPath(k, e.meta) == Some(body)
    ensures OrphansOn(Run(fs, EvictActs(k, body, bodyFails, metaFails))) == OrphansOn(fs)
  {
    var r := Run(fs, EvictActs(k, body, bodyFails, metaFails));
    EvictIsAtomic(fs, k, e, body, bodyFails, metaFails);
    forall p: Path | p.IsBody()
      ensures p in OrphansOn(r) <==> p in OrphansOn(fs)
    {
      EvictedBodies(fs, k, body, bodyFails, metaFails, p);
      if bodyFails { SameOrphan(fs, r, p); } else { OrphanBesideRemoved(fs, r, k, body, p); }
    }
  }

  lemma SameOrphan(a: FS, b: FS, p: Path)
    requires Wf(a) && Wf(b) && p.IsBody() && At(b, p) == At(a, p) && View(b) == View(a)
    ensures p in OrphansOn(b) <==> p in OrphansOn(a)
  {
    NamedIffContent(a, p);
    NamedIffContent(b, p);
    ServesDependsOnView(a, b, p);
  }

  /** Where the served body of a key and the key are gone, the orphans are what they were. */
  lemma OrphanBesideRemoved(a: FS, b: FS, k: Key, body: Path, p: Path)
    requires Wf(a) && Wf(b) && p.IsBody() && CurrentBody(a, k) == Some(body) && View(b) == View(a) - {k}
    requires At(b, p) == if p == body then None else At(a, p)
    ensures p in OrphansOn(b) <==> p in OrphansOn(a)
  {
    NamedIffContent(a, p);
    NamedIffContent(b, p);
    if p.key == k { ViewIsGet(b, k); } else { ServesDependsOnView(a, b, p); }
  }

  /** A removal interrupted after n syscalls is one whose later syscalls failed. */
  lemma EvictPrefix(k: Key, body: Path, bodyFails: bool, metaFails: bool, n: nat)
    requires n <= |EvictActs(k, body, bodyFails, metaFails)|
    ensures EvictActs(k, body, bodyFails, metaFails)[..n] == EvictActs(k, body, n == 0, n <= 1)
  {
  }

  lemma RemovalOrphans(m: Machine, start: map<Key, Entry>, r: Region, n: nat)
    requires Inv(m, start) && RegionEnabled(m, r) && !r.Committing? && n <= |RegionActs(m, r)|
    ensures OrphansOn(Run(m.st.fs, RegionActs(m, r)[..n])) == OrphansOn(m.st.fs)
  {
    var fs := m.st.fs;
    if RegionActs(m, r) != [] {
      if r.Evicting? {
        var c := r.candidate;
        SightingIsTruthful(m, start, c);
        RemoveOnlyNamedGeneration(fs, c, r.bodyFails, r.metaFails);
        EvictPrefix(c.key, c.bodyPath, false, r.metaFails, n);
        EvictOrphans(fs, c.key, Get(fs, c.key).value, c.bodyPath, n == 0, n <= 1);
      } else {
        var body := Judge(fs, r.key, r.cutoff).body;
        EvictPrefix(r.key, body, r.bodyFails, r.metaFails, n);
        EvictOrphans(fs, r.key, Get(fs, r.key).value, body, n == 0, n <= 1);
      }
    }
  }

  // ---------------------------------------------------------------- steps

  /** The bodies a step may leave behind: exactly, for a completed region; at most, for a crash. */
  ghost function Leaks(m: Machine, l: Label): set<Path>
    requires Enabled(m, l)
  {
    match l
    case Finish(Committing(id, f)) => CommitLeaks(m.st.fs, m.flights[id].job, f)
    case Crash(Committing(id, _), _) => {m.flights[id].job.Target()} + Superseded(m.st.fs, m.flights[id].job.key)
    case _ => {}
  }

  ghost function Retires(m: Machine, l: Label): set<Path>
    requires Enabled(m, l)
  {
    match l
    case Finish(Committing(id, f)) => CommitRetires(m.st.fs, m.flights[id].job, f)
    case _ => {}
  }

  lemma FinishOrphans(m: Machine, start: map<Key, Entry>, r: Region)
    requires Inv(m, start) && RegionEnabled(m, r)
    ensures OrphansOn(Next(m, Finish(r)).st.fs) == OrphansOn(m.st.fs) - Retires(m, Finish(r)) + Leaks(m, Finish(r))
  {
    if r.Committing? {
      WrittenIsReady(m, start, r.id);
      CommitOrphans(m.st.fs, m.flights[r.id].job, m.flights[r.id].body, r.faults);
    } else {
      RemovalOrphans(m, start, r, |RegionActs(m, r)|);
      RegionRuns(m, r);
    }
  }

  /** A body that became an orphan within a commit is its new body or the one it was to replace. */
  lemma OrphanWithin(a: FS, b: FS, c: Change, p: Path)
    requires Within(a, b, c) && c.put.Some? && c.put.value.key == c.key
    requires View(b) in {View(a), View(a) - {c.key}, Published(View(a), c.put.value, c.body)}
    requires p in OrphansOn(b) && p !in OrphansOn(a)
    ensures p == c.put.value.Target() || p in Superseded(a, c.key)
  {
    assert WithinAt(a, b, c, p);
    NamedIffContent(a, p);
    NamedIffContent(b, p);
    CurrentIsPrevious(a, p.key);
    if p.key != c.key { ServesDependsOnView(a, b, p); }
  }

  lemma OrphansWithin(a: FS, b: FS, c: Change)
    requires Within(a, b, c) && c.put.Some? && c.put.value.key == c.key
    requires View(b) in {View(a), View(a) - {c.key}}
             + (if c.put.Some? then {Published(View(a), c.put.value, c.body)} else {})
    ensures OrphansOn(b) <= OrphansOn(a) + {c.put.value.Target()} + Superseded(a, c.key)
  {
    forall p | p in OrphansOn(b) && p !in OrphansOn(a)
      ensures p == c.put.value.Target() || p in Superseded(a, c.key)
    {
      OrphanWithin(a, b, c, p);
    }
  }

  lemma CrashOrphans(m: Machine, start: map<Key, Entry>, id: nat, f: CommitFaults, n: nat)
    requires Inv(m, start) && RegionEnabled(m, Committing(id, f)) && n <= |RegionActs(m, Committing(id, f))|
    ensures var job := m.flights[id].job;
            OrphansOn(Run(m.st.fs, RegionActs(m, Committing(id, f))[..n]))
            <= OrphansOn(m.st.fs) + {job.Target()} + Superseded(m.st.fs, job.key)
  {
    var r, job := Committing(id, f), m.flights[id].job;
    RegionStaysWithin(m, start, r, n);
    CrashViews(m, start, r, n);
    OrphansWithin(m.st.fs, Run(m.st.fs, RegionActs(m, r)[..n]), ChangeOf(m, r));
  }

  lemma SmallStepOrphans(m: Machine, start: map<Key, Entry>, l: Label)
    requires Inv(m, start) && Enabled(m, l) && !l.Finish? && !l.Crash?
    ensures OrphansOn(Next(m, l).st.fs) == OrphansOn(m.st.fs)
  {
    InvHasWf(m, start);
    StepIsLegal(m, l);
    var acts := StepActs(m, l);
    if acts != [] {
      assert acts == [acts[0]];
      forall p: Path | !p.IsTemp()
        ensures At(m.st.fs, p) == At(Next(m, l).st.fs, p)
      {
        OneEffect(m.st.fs, acts[0], p);
      }
      OneEffect(m.st.fs, acts[0], MetaFile(""));
      SameOrphans(m.st.fs, Next(m, l).st.fs);
    }
  }

  lemma CrashStepOrphans(m: Machine, start: map<Key, Entry>, r: Region, n: nat)
    requires Inv(m, start) && Enabled(m, Crash(r, n))
    ensures OrphansOn(Next(m, Crash(r, n)).st.fs) <= OrphansOn(m.st.fs) + Leaks(m, Crash(r, n))
  {
    if r.Committing? { CrashOrphans(m, start, r.id, r.faults, n); } else { RemovalOrphans(m, start, r, n); }
  }

  /** Orphans appear exactly at a commit whose unlink fails or whose fallback loses an entry, and in
      a crash during a commit, which leaves two at most; a later put that supersedes one may take it
      away; nothing else changes them. */
  lemma StepOrphans(m: Machine, start: map<Key, Entry>, l: Label)
    requires Inv(m, start) && Enabled(m, l)
    ensures !l.Crash? ==> OrphansOn(Next(m, l).st.fs) == OrphansOn(m.st.fs) - Retires(m, l) + Leaks(m, l)
    ensures l.Crash? ==> OrphansOn(Next(m, l).st.fs) <= OrphansOn(m.st.fs) + Leaks(m, l)
  {
    if l.Finish? {
      FinishOrphans(m, start, l.region);
    } else if !l.Crash? {
      SmallStepOrphans(m, start, l);
    } else {
      CrashStepOrphans(m, start, l.region, l.n);
    }
  }

  // ---------------------------------------------------------------- runs

  /** All bodies the steps of a run may leave behind. */
  ghost function Leaked(m: Machine, ls: seq<Label>): set<Path>
    decreases ls
  {
    if ls == [] || !Enabled(m, ls[0]) then {} else Leaks(m, ls[0]) + Leaked(Next(m, ls[0]), ls[1..])
  }

  lemma {:induction false} OrphansAreLeaked(m: Machine, ls: seq<Label>, m': Machine, start: map<Key, Entry>)
    requires Inv(m, start) && Runs(m, ls, m')
    ensures OrphansOn(m'.st.fs) <= OrphansOn(m.st.fs) + Leaked(m, ls)
    decreases ls
  {
    if ls != [] {
      StepOrphans(m, start, ls[0]);
      StepKeepsInv(m, start, ls[0]);
      OrphansAreLeaked(Next(m, ls[0]), ls[1..], m', start);
    }
  }

  lemma LossLeaks(m: Machine, l: Label)
    requires Enabled(m, l) && LosingStep(m, l)
    ensures Leaks(m, l) != {}
  {
    var job := m.flights[l.region.id].job;
    assert PreviousOf(m.st.fs, job.key).path.value in Superseded(m.st.fs, job.key);
  }

  lemma {:induction false} NothingLeakedNothingLost(m: Machine, ls: seq<Label>, m': Machine)
    requires Runs(m, ls, m') && Leaked(m, ls) == {} && m.lostBytes == 0
    ensures m'.lostBytes == 0
    decreases ls
  {
    if ls != [] {
      StepLoss(m, ls[0]);
      if LosingStep(m, ls[0]) { LossLeaks(m, ls[0]); }
      NothingLeakedNothingLost(Next(m, ls[0]), ls[1..], m');
    }
  }

  /** In a run that leaks nothing, started on a directory without orphans, every body file is the
      current body of its key, and the byte counter is the size of all body files. */
  lemma EveryBodyIsServed(fs: FS, drawn: set<string>, ls: seq<Label>, m: Machine)
    requires Wf(fs) && PublishedOk(fs, drawn) && Runs(Boot(fs, drawn), ls, m)
    requires OrphansOn(fs) == {} && Leaked(Boot(fs, drawn), ls) == {}
    ensures forall p :: p in Bodies(m.st.fs) ==> CurrentBody(m.st.fs, p.key) == Some(p)
    ensures m.st.bytes == DiskBytes(m.st.fs)
  {
    BootHasInv(fs, drawn);
    OrphansAreLeaked(Boot(fs, drawn), ls, m, View(fs));
    NothingLeakedNothingLost(Boot(fs, drawn), ls, m);
    StoreRefinesMap(fs, drawn, ls, m);
    DiskIsServedAndOrphans(m.st.fs);
    forall p | p in Bodies(m.st.fs)
      ensures Serves(m.st.fs, p)
    {
      assert p !in OrphansOn(m.st.fs);
    }
  }

  /** In every run the byte counter, plus the orphans the run leaked, covers the body files on disk. */
  lemma CounterCoversDisk(fs: FS, drawn: set<string>, ls: seq<Label>, m: Machine)
    requires Wf(fs) && PublishedOk(fs, drawn) && Runs(Boot(fs, drawn), ls, m)
    ensures m.st.bytes + OrphanBytes(m.st.fs) == DiskBytes(m.st.fs) + m.lostBytes
    ensures OrphansOn(m.st.fs) <= OrphansOn(fs) + Leaked(Boot(fs, drawn), ls)
  {
    BootHasInv(fs, drawn);
    OrphansAreLeaked(Boot(fs, drawn), ls, m, View(fs));
    StoreRefinesMap(fs, drawn, ls, m);
    DiskIsServedAndOrphans(m.st.fs);
  }

  /** A stored put whose last unlink fails leaves the old body: on disk, and in no counter. */
  lemma StoredPutCanLeak(previous: seq<Byte>, body: seq<Byte>)
    ensures var fs, job, f := PutOverEntry(previous, body), FreshJob(body), NO_FAULTS.(removePrevious := true);
            CommitOk(fs, job, f) && LegacyBody("k") in OrphansOn(Run(fs, CommitActs(fs, job, f)))
  {
    var fs, job, f := PutOverEntry(previous, body), FreshJob(body), NO_FAULTS.(removePrevious := true);
    PutOverEntryIsReady(previous, body);
    CommitOrphans(fs, job, body, f);
    SupersededOfPut(previous, body);
    assert CommitLeaks(fs, job, f) == Superseded(fs, "k");
  }

  lemma SupersededOfPut(previous: seq<Byte>, body: seq<Byte>)
    ensures Superseded(PutOverEntry(previous, body), "k") == {LegacyBody("k")}
  {
    PreviousOfPut(previous, body);
  }
}
