/** A whole put on the store's state: spool, prepare the metadata, commit, clean up. */
module PutSpec {
  import opened Basics
  import opened FileSystem
  import opened StoreSpec

  function Spooled(st: StoreState, body: Path, cached: seq<Byte>, now: int): StoreState {
    st.(fs := Do(Do(st.fs, Create(body, now)), Append(body, cached, now)), active := st.active + {body})
  }

  function Prepared(st: StoreState, job: PutJob, now: int): StoreState {
    st.(fs := Do(Do(st.fs, Create(job.Meta(), now)), Encode(job.Meta(), job.meta, now)),
        active := st.active + {job.Meta()})
  }

  /** The deferred clean-up of one temporary file: remove what is left of it, then forget it. */
  function Forgotten(st: StoreState, temp: Path, unlinkFails: bool): StoreState {
    st.(fs := if unlinkFails then st.fs else Do(st.fs, Unlink(temp)), active := st.active - {temp})
  }

  /** CreateTemp's random suffix: not in use, and never yet a generation of this key. */
  ghost predicate FreshSuffixes(st: StoreState, key: Key, bodySuffix: string, metaSuffix: string) {
    && '/' !in key && '/' !in bodySuffix
    && BodyTemp(bodySuffix) !in st.fs.names && MetaTemp(metaSuffix) !in st.fs.names
    && BodyTemp(bodySuffix) !in st.active && MetaTemp(metaSuffix) !in st.active
    && Generation(key, bodySuffix) !in st.fs.names
    && PreviousOf(st.fs, key).path != Some(Generation(key, bodySuffix))
  }

  /** A put that stores publishes its entry and nothing else; one that does not leaves the view
      as it was, or without its key if its commit lost it, the counters then left above the scan. */
  ghost predicate PutOutcome(before: StoreState, after: StoreState, key: Key, entry: Entry, lost: bool, stored: bool) {
    && Wf(after.fs)
    && View(after.fs) == (if stored then View(before.fs)[key := entry]
                          else if lost then View(before.fs) - {key} else View(before.fs))
    && ByteDrift(after) == ByteDrift(before) + (if lost && !stored then SizeIn(View(before.fs), key) else 0)
    && ObjectDrift(after) == ObjectDrift(before) + (if lost && !stored && key in View(before.fs) then 1 else 0)
  }

  /** Same entries, same counters. */
  ghost predicate SameStore(a: StoreState, b: StoreState) {
    View(a.fs) == View(b.fs) && a.bytes == b.bytes && a.objects == b.objects
  }

  lemma OutcomeBetween(a: StoreState, b: StoreState, c: StoreState, d: StoreState,
                       key: Key, entry: Entry, lost: bool, stored: bool)
    requires SameStore(a, b) == true && SameStore(c, d) == true
    requires PutOutcome(b, c, key, entry, lost, stored) == true && Wf(d.fs) == true
    ensures PutOutcome(a, d, key, entry, lost, stored) == true
  {
  }

  lemma SpoolIsInvisible(st: StoreState, suffix: string, cached: seq<Byte>, now: int)
    requires Wf(st.fs) && BodyTemp(suffix) !in st.fs.names
    ensures var r := Spooled(st, BodyTemp(suffix), cached, now);
            && Wf(r.fs) && SameStore(st, r) == true
            && (forall p :: At(r.fs, p) == if p == BodyTemp(suffix) then Some(Bytes(cached)) else At(st.fs, p))
            && r.fs.names.Keys == st.fs.names.Keys + {BodyTemp(suffix)}
  {
    var p := BodyTemp(suffix);
    var c, a := Create(p, now), Append(p, cached, now);
    DoEffect(st.fs, c);
    TempActionKeepsView(st.fs, c);
    DoEffect(Do(st.fs, c), a);
    TempActionKeepsView(Do(st.fs, c), a);
    assert [] + cached == cached;
  }

  lemma PrepareIsInvisible(st: StoreState, job: PutJob, now: int)
    requires Wf(st.fs) && job.Meta() !in st.fs.names
    ensures var r := Prepared(st, job, now);
            && Wf(r.fs) && SameStore(st, r) == true
            && (forall p :: At(r.fs, p) == if p == job.Meta() then Some(Json(job.meta)) else At(st.fs, p))
            && r.fs.names.Keys == st.fs.names.Keys + {job.Meta()}
  {
    var c, e := Create(job.Meta(), now), Encode(job.Meta(), job.meta, now);
    DoEffect(st.fs, c);
    TempActionKeepsView(st.fs, c);
    DoEffect(Do(st.fs, c), e);
    TempActionKeepsView(Do(st.fs, c), e);
  }

  lemma ForgetIsInvisible(st: StoreState, temp: Path, unlinkFails: bool)
    requires Wf(st.fs) && temp.IsTemp()
    ensures Wf(Forgotten(st, temp, unlinkFails).fs) && SameStore(st, Forgotten(st, temp, unlinkFails))
  {
    DoEffect(st.fs, Unlink(temp));
    TempActionKeepsView(st.fs, Unlink(temp));
  }

  // ---------------------------------------------------------------- temporary names

  /** Actions that publish temporary files or touch permanent ones. */
  predicate Publishing(acts: seq<Action>) {
    forall i :: 0 <= i < |acts| ==>
      match acts[i]
      case Rename(p, q) => p.IsTemp() && !q.IsTemp()
      case Unlink(p) => !p.IsTemp()
      case Chtimes(_, _) => true
      case _ => false
  }

  predicate RenamesFrom(acts: seq<Action>, p: Path) {
    exists i :: 0 <= i < |acts| && acts[i].Rename? && acts[i].from == p
  }

  lemma {:induction false} PublishingTemps(fs: FS, acts: seq<Action>, p: Path)
    requires Publishing(acts) && p.IsTemp()
    ensures p in Run(fs, acts).names <==> p in fs.names && !RenamesFrom(acts, p)
    decreases acts
  {
    if acts != [] {
      var rest := acts[1..];
      PublishingTemps(Do(fs, acts[0]), rest, p);
      assert forall i :: 0 <= i < |rest| ==> rest[i] == acts[i + 1];
      if RenamesFrom(acts, p) && !(acts[0].Rename? && acts[0].from == p) {
        var i :| 0 <= i < |acts| && acts[i].Rename? && acts[i].from == p;
        assert rest[i - 1] == acts[i];
      }
    }
  }

  /** The commit consumes the body's temporary name once the first rename worked, and the
      metadata's once a metadata rename did; it touches no other temporary name. */
  lemma CommitTemps(fs: FS, job: PutJob, body: seq<Byte>, f: CommitFaults, p: Path)
    requires Ready(fs, job, body) && p.IsTemp()
    ensures p in Run(fs, CommitActs(fs, job, f)).names <==>
              && p in fs.names
              && !(p == job.BodyFile() && !f.renameBody)
              && !(p == job.Meta() && !f.renameBody && !f.setTime && ReplaceOk(MetaFile(job.key) in fs.names, f))
  {
    var acts := CommitActs(fs, job, f);
    RetireIsPermanent(fs, job, f);
    PublishingTemps(fs, acts, p);
    var middle := ReplaceActs(MetaFile(job.key) in fs.names, job.Meta(), MetaFile(job.key), f);
    if !f.renameBody {
      assert acts[0] == Rename(job.BodyFile(), job.Target());
      if !f.setTime && ReplaceOk(MetaFile(job.key) in fs.names, f) {
        var n := 1 + |middle|;
        assert acts[n] == middle[|middle| - 1] == Rename(job.Meta(), MetaFile(job.key));
      }
    }
  }

  lemma RetireIsPermanent(fs: FS, job: PutJob, f: CommitFaults)
    ensures Publishing(CommitActs(fs, job, f))
    ensures forall i :: 0 <= i < |CloseActs(fs, job, f)| ==> CloseActs(fs, job, f)[i].Unlink?
  {
  }

  predicate AlwaysLegal(a: Action) {
    match a
    case Rename(p, q) => (p.BodyTemp? && q.Generation?) || (p.MetaTemp? && q.MetaFile?)
    case Unlink(_) => true
    case Chtimes(p, _) => p.IsBody()
    case _ => false
  }

  lemma {:induction false} AlwaysLegalRun(fs: FS, acts: seq<Action>)
    requires forall i :: 0 <= i < |acts| ==> AlwaysLegal(acts[i])
    ensures LegalRun(fs, acts)
    decreases acts
  {
    if acts != [] { AlwaysLegalRun(Do(fs, acts[0]), acts[1..]); }
  }

  lemma CommitWf(fs: FS, job: PutJob, f: CommitFaults)
    requires Wf(fs)
    ensures Wf(Run(fs, CommitActs(fs, job, f))) && LegalRun(fs, CommitActs(fs, job, f))
  {
    RetireIsPermanent(fs, job, f);
    AlwaysLegalRun(fs, CommitActs(fs, job, f));
    RunWf(fs, CommitActs(fs, job, f));
  }

  // ---------------------------------------------------------------- the chain

  function TempNames(fs: FS): set<Path> { set p | p in fs.names && p.IsTemp() }

  lemma SameStoreTransitive(a: StoreState, b: StoreState, c: StoreState)
    requires SameStore(a, b) == true && SameStore(b, c) == true
    ensures SameStore(a, c) == true
  {
  }

  lemma SamePrevious(a: FS, b: FS, k: Key)
    requires forall p: Path :: !p.IsTemp() ==> At(a, p) == At(b, p)
    ensures PreviousOf(a, k) == PreviousOf(b, k)
  {
  }

  lemma TwoFilesMore(a: FS, b: FS, c: FS, p: Path, x: Content, q: Path, y: Content)
    requires p != q && p.IsTemp() && q.IsTemp()
    requires b.names.Keys == a.names.Keys + {p} && forall r :: At(b, r) == if r == p then Some(x) else At(a, r)
    requires c.names.Keys == b.names.Keys + {q} && forall r :: At(c, r) == if r == q then Some(y) else At(b, r)
    ensures c.names.Keys == a.names.Keys + {p, q} && At(c, p) == Some(x) && At(c, q) == Some(y)
    ensures forall r: Path :: !r.IsTemp() ==> At(c, r) == At(a, r)
  {
  }

  lemma SpooledFiles(st: StoreState, job: PutJob, body: seq<Byte>, now: int)
    requires Wf(st.fs) && FreshSuffixes(st, job.key, job.bodySuffix, job.metaSuffix)
    ensures var r := Prepared(Spooled(st, job.BodyFile(), body, now), job, now);
            && Wf(r.fs) && SameStore(st, r) == true
            && r.fs.names.Keys == st.fs.names.Keys + {job.BodyFile(), job.Meta()}
            && At(r.fs, job.BodyFile()) == Some(Bytes(body)) && At(r.fs, job.Meta()) == Some(Json(job.meta))
            && forall p: Path :: !p.IsTemp() ==> At(r.fs, p) == At(st.fs, p)
  {
    var spooled := Spooled(st, job.BodyFile(), body, now);
    SpoolIsInvisible(st, job.bodySuffix, body, now);
    PrepareIsInvisible(spooled, job, now);
    var prepared := Prepared(spooled, job, now);
    TwoFilesMore(st.fs, spooled.fs, prepared.fs, job.BodyFile(), Bytes(body), job.Meta(), Json(job.meta));
    SameStoreTransitive(st, spooled, prepared);
  }

  lemma SpooledIsReady(st: StoreState, job: PutJob, body: seq<Byte>, now: int)
    requires Wf(st.fs) && FreshSuffixes(st, job.key, job.bodySuffix, job.metaSuffix)
    requires job.meta.bodyFile == GenerationName(job.key, job.bodySuffix) && job.meta.contentBytes == |body|
    ensures var r := Prepared(Spooled(st, job.BodyFile(), body, now), job, now);
            && Ready(r.fs, job, body) == true && SameStore(st, r) == true
            && r.fs.names.Keys == st.fs.names.Keys + {job.BodyFile(), job.Meta()}
            && PreviousOf(r.fs, job.key) == PreviousOf(st.fs, job.key)
  {
    SpooledFiles(st, job, body, now);
    SamePrevious(st.fs, Prepared(Spooled(st, job.BodyFile(), body, now), job, now).fs, job.key);
  }

  lemma UnrefusedView(fs: FS, job: PutJob, body: seq<Byte>, f: CommitFaults)
    requires !f.refused
    ensures CommitView(View(fs), MetaFile(job.key) in fs.names, job, body, f)
         == if CommitOk(fs, job, f) then View(fs)[job.key := Entry(job.meta, body)]
            else if FallbackLoses(f) then View(fs) - {job.key} else View(fs)
    ensures FallbackLoses(f) ==> !CommitOk(fs, job, f)
  {
  }

  lemma OutcomeOf(st: StoreState, st': StoreState, key: Key, entry: Entry, lost: bool, stored: bool)
    requires Wf(st'.fs) && (lost ==> !stored)
    requires View(st'.fs)
          == if stored then View(st.fs)[key := entry] else if lost then View(st.fs) - {key} else View(st.fs)
    requires ByteDrift(st') == ByteDrift(st) + (if lost && key in View(st.fs) then SizeIn(View(st.fs), key) else 0)
    requires ObjectDrift(st') == ObjectDrift(st) + (if lost && key in View(st.fs) then 1 else 0)
    ensures PutOutcome(st, st', key, entry, lost, stored)
  {
  }

  lemma CommitHasOutcome(st: StoreState, job: PutJob, body: seq<Byte>, f: CommitFaults)
    requires Ready(st.fs, job, body) && !f.refused
    ensures PutOutcome(st, AfterCommit(st, job, f), job.key, Entry(job.meta, body), FallbackLoses(f),
                       CommitOk(st.fs, job, f))
  {
    var st' := AfterCommit(st, job, f);
    assert Wf(st.fs) && Wf(st'.fs) by { CommitWf(st.fs, job, f); }
    CommitIsAtomic(st.fs, job, body, f);
    UnrefusedView(st.fs, job, body, f);
    CommitKeepsCounters(st, job, body, f);
    PreviousIsEntry(st.fs, job.key);
    OutcomeOf(st, st', job.key, Entry(job.meta, body), FallbackLoses(f), CommitOk(st.fs, job, f));
  }

  /** A committed body carries the time its entry was stored at, so that a listing puts it behind
      everything last used before. */
  lemma CommitDatesBody(fs: FS, job: PutJob, body: seq<Byte>, f: CommitFaults)
    requires Ready(fs, job, body) && CommitOk(fs, job, f)
    ensures job.Target() in Run(fs, CommitActs(fs, job, f)).names
    ensures MtimeAt(Run(fs, CommitActs(fs, job, f)), job.Target()) == job.meta.storedAt
  {
    var place, date := Rename(job.BodyFile(), job.Target()), Chtimes(job.Target(), job.meta.storedAt);
    var middle := ReplaceActs(MetaFile(job.key) in fs.names, job.Meta(), MetaFile(job.key), f);
    var rest := middle + CloseActs(fs, job, f);
    DoEffect(fs, place);
    DoEffect(Do(fs, place), date);
    DoDates(Do(fs, place), date);
    var placed := Run(fs, PlaceActs(job));
    Step2(fs, place, date, {});
    assert CommitActs(fs, job, f) == PlaceActs(job) + rest;
    RunConcat(fs, PlaceActs(job), rest);
    RestLeavesBody(fs, job, f, rest);
    AlwaysLegalRun(placed, rest);
    RunLeavesAlone(placed, rest, job.Target());
    RunKeepsName(placed, rest, job.Target());
  }

  lemma RestLeavesBody(fs: FS, job: PutJob, f: CommitFaults, rest: seq<Action>)
    requires CommitOk(fs, job, f)
    requires rest == ReplaceActs(MetaFile(job.key) in fs.names, job.Meta(), MetaFile(job.key), f)
                     + CloseActs(fs, job, f)
    ensures forall i :: 0 <= i < |rest| ==> LeavesAlone(rest[i], job.Target()) && AlwaysLegal(rest[i])
  {
  }

  lemma {:induction false} RunKeepsName(fs: FS, acts: seq<Action>, p: Path)
    requires p in fs.names && forall i :: 0 <= i < |acts| ==> LeavesAlone(acts[i], p)
    ensures p in Run(fs, acts).names
    decreases acts
  {
    if acts != [] { RunKeepsName(Do(fs, acts[0]), acts[1..], p); }
  }

  /** The state after the commit region and the two deferred clean-ups. */
  function Closed(st: StoreState, job: PutJob, f: CommitFaults, metaUnlinkFails: bool,
                  bodyUnlinkFails: bool): StoreState {
    Forgotten(Forgotten(AfterCommit(st, job, f), job.Meta(), metaUnlinkFails), job.BodyFile(), bodyUnlinkFails)
  }

  lemma ClosingIsInvisible(st: StoreState, job: PutJob, f: CommitFaults, metaUnlinkFails: bool, bodyUnlinkFails: bool)
    requires Wf(AfterCommit(st, job, f).fs)
    ensures var last := Closed(st, job, f, metaUnlinkFails, bodyUnlinkFails);
            && Wf(last.fs) && SameStore(AfterCommit(st, job, f), last)
            && last.active == st.active - {job.Meta()} - {job.BodyFile()}
  {
    var committed := AfterCommit(st, job, f);
    var half := Forgotten(committed, job.Meta(), metaUnlinkFails);
    ForgetIsInvisible(committed, job.Meta(), metaUnlinkFails);
    ForgetIsInvisible(half, job.BodyFile(), bodyUnlinkFails);
    SameStoreTransitive(committed, half, Forgotten(half, job.BodyFile(), bodyUnlinkFails));
  }

  /** From the first temporary file to the last deferred clean-up, for every combination of
      failures: the view and the counters change as PutOutcome says. */
  lemma PutChain(st: StoreState, job: PutJob, body: seq<Byte>, now: int, f: CommitFaults,
                 metaUnlinkFails: bool, bodyUnlinkFails: bool)
    requires Wf(st.fs) && FreshSuffixes(st, job.key, job.bodySuffix, job.metaSuffix) && !f.refused
    requires job.meta.bodyFile == GenerationName(job.key, job.bodySuffix) && job.meta.contentBytes == |body|
    ensures var ready := Prepared(Spooled(st, job.BodyFile(), body, now), job, now);
            var last := Closed(ready, job, f, metaUnlinkFails, bodyUnlinkFails);
            PutOutcome(st, last, job.key, Entry(job.meta, body), FallbackLoses(f), CommitOk(ready.fs, job, f))
  {
    var ready := Prepared(Spooled(st, job.BodyFile(), body, now), job, now);
    SpooledIsReady(st, job, body, now);
    CommitHasOutcome(ready, job, body, f);
    CommitWf(ready.fs, job, f);
    ClosingIsInvisible(ready, job, f, metaUnlinkFails, bodyUnlinkFails);
    OutcomeBetween(st, ready, AfterCommit(ready, job, f), Closed(ready, job, f, metaUnlinkFails, bodyUnlinkFails),
                   job.key, Entry(job.meta, body), FallbackLoses(f), CommitOk(ready.fs, job, f));
  }

  lemma ForgettingKeepsDates(st: StoreState, temp: Path, unlinkFails: bool, p: Path)
    requires Wf(st.fs) && temp.IsTemp() && !p.IsTemp() && p in st.fs.names
    ensures var r := Forgotten(st, temp, unlinkFails).fs;
            Wf(r) && p in r.names && MtimeAt(r, p) == MtimeAt(st.fs, p)
  {
    DoEffect(st.fs, Unlink(temp));
    DoDates(st.fs, Unlink(temp));
  }

  /** A put that stores leaves its body dated with the time it recorded. */
  lemma PutDatesBody(st: StoreState, job: PutJob, body: seq<Byte>, f: CommitFaults, metaUnlinkFails: bool,
                     bodyUnlinkFails: bool)
    requires Ready(st.fs, job, body) && CommitOk(st.fs, job, f)
    ensures var last := Closed(st, job, f, metaUnlinkFails, bodyUnlinkFails).fs;
            job.Target() in last.names && MtimeAt(last, job.Target()) == job.meta.storedAt
  {
    var committed := AfterCommit(st, job, f);
    CommitWf(st.fs, job, f);
    CommitDatesBody(st.fs, job, body, f);
    ForgettingKeepsDates(committed, job.Meta(), metaUnlinkFails, job.Target());
    ForgettingKeepsDates(Forgotten(committed, job.Meta(), metaUnlinkFails), job.BodyFile(), bodyUnlinkFails,
                         job.Target());
  }

  lemma PutForgetsItsNames(st: StoreState, job: PutJob, body: seq<Byte>, now: int, f: CommitFaults,
                           metaUnlinkFails: bool, bodyUnlinkFails: bool)
    requires BodyTemp(job.bodySuffix) !in st.active && MetaTemp(job.metaSuffix) !in st.active
    ensures var ready := Prepared(Spooled(st, job.BodyFile(), body, now), job, now);
            Closed(ready, job, f, metaUnlinkFails, bodyUnlinkFails).active == st.active
  {
    var spooled := Spooled(st, job.BodyFile(), body, now);
    assert Prepared(spooled, job, now).active - {job.Meta()} - {job.BodyFile()} == st.active;
  }

  /** With working unlinks a put leaves no temporary file, whether or not it was stored. */
  lemma PutLeavesNoTemps(st: StoreState, job: PutJob, body: seq<Byte>, now: int, f: CommitFaults)
    requires Wf(st.fs) && FreshSuffixes(st, job.key, job.bodySuffix, job.metaSuffix)
    requires job.meta.bodyFile == GenerationName(job.key, job.bodySuffix) && job.meta.contentBytes == |body|
    ensures var ready := Prepared(Spooled(st, job.BodyFile(), body, now), job, now);
            TempNames(Closed(ready, job, f, false, false).fs) == TempNames(st.fs)
  {
    var ready := Prepared(Spooled(st, job.BodyFile(), body, now), job, now);
    SpooledIsReady(st, job, body, now);
    var last := Closed(ready, job, f, false, false);
    forall p: Path | p.IsTemp()
      ensures p in last.fs.names <==> p in st.fs.names
    {
      CommitTemps(ready.fs, job, body, f, p);
      ClosedNames(ready, job, f, p);
    }
  }

  lemma ClosedNames(st: StoreState, job: PutJob, f: CommitFaults, p: Path)
    ensures p in Closed(st, job, f, false, false).fs.names <==>
              p in AfterCommit(st, job, f).fs.names && p != job.Meta() && p != job.BodyFile()
  {
  }

  /** A put that gives up before the commit leaves no trace but, at worst, its body's temporary file. */
  lemma AbandonedChain(st: StoreState, suffix: string, cached: seq<Byte>, now: int, unlinkFails: bool)
    requires Wf(st.fs) && BodyTemp(suffix) !in st.fs.names && BodyTemp(suffix) !in st.active
    ensures var last := Forgotten(Spooled(st, BodyTemp(suffix), cached, now), BodyTemp(suffix), unlinkFails);
            && Wf(last.fs) && SameStore(st, last) && last.active == st.active
            && (!unlinkFails ==> TempNames(last.fs) == TempNames(st.fs))
  {
    SpoolIsInvisible(st, suffix, cached, now);
    ForgetIsInvisible(Spooled(st, BodyTemp(suffix), cached, now), BodyTemp(suffix), unlinkFails);
  }

  /** Likewise if the metadata file could not be written. */
  lemma UnwrittenMetadataChain(st: StoreState, job: PutJob, body: seq<Byte>, now: int, metaUnlinkFails: bool,
                               bodyUnlinkFails: bool)
    requires Wf(st.fs) && FreshSuffixes(st, job.key, job.bodySuffix, job.metaSuffix)
    ensures var ready := Prepared(Spooled(st, job.BodyFile(), body, now), job, now);
            var last := Forgotten(Forgotten(ready, job.Meta(), metaUnlinkFails), job.BodyFile(), bodyUnlinkFails);
            Wf(last.fs) && SameStore(st, last)
  {
    var spooled := Spooled(st, job.BodyFile(), body, now);
    var ready := Prepared(spooled, job, now);
    SpoolIsInvisible(st, job.bodySuffix, body, now);
    PrepareIsInvisible(spooled, job, now);
    SameStoreTransitive(st, spooled, ready);
    ForgetIsInvisible(ready, job.Meta(), metaUnlinkFails);
    var half := Forgotten(ready, job.Meta(), metaUnlinkFails);
    SameStoreTransitive(st, ready, half);
    ForgetIsInvisible(half, job.BodyFile(), bodyUnlinkFails);
    SameStoreTransitive(st, half, Forgotten(half, job.BodyFile(), bodyUnlinkFails));
  }

  lemma UnwrittenMetadataNames(st: StoreState, job: PutJob, body: seq<Byte>, now: int, metaUnlinkFails: bool,
                               bodyUnlinkFails: bool)
    requires Wf(st.fs) && FreshSuffixes(st, job.key, job.bodySuffix, job.metaSuffix)
    ensures var ready := Prepared(Spooled(st, job.BodyFile(), body, now), job, now);
            var last := Forgotten(Forgotten(ready, job.Meta(), metaUnlinkFails), job.BodyFile(), bodyUnlinkFails);
            && last.active == st.active
            && (!metaUnlinkFails && !bodyUnlinkFails ==> TempNames(last.fs) == TempNames(st.fs))
  {
    var ready := Prepared(Spooled(st, job.BodyFile(), body, now), job, now);
    PreparedKeys(st, job, body, now);
    assert ready.active - {job.Meta()} - {job.BodyFile()} == st.active;
    var half := Forgotten(ready, job.Meta(), false);
    assert half.fs.names.Keys == ready.fs.names.Keys - {job.Meta()};
    assert Forgotten(half, job.BodyFile(), false).fs.names.Keys == half.fs.names.Keys - {job.BodyFile()};
  }

  lemma PreparedKeys(st: StoreState, job: PutJob, body: seq<Byte>, now: int)
    requires Wf(st.fs) && FreshSuffixes(st, job.key, job.bodySuffix, job.metaSuffix)
    ensures Prepared(Spooled(st, job.BodyFile(), body, now), job, now).fs.names.Keys
         == st.fs.names.Keys + {job.BodyFile(), job.Meta()}
  {
    SpoolIsInvisible(st, job.bodySuffix, body, now);
    PrepareIsInvisible(Spooled(st, job.BodyFile(), body, now), job, now);
  }

  /** A put that changed no entry and no counter is a put that did not store. */
  lemma NothingStored(a: StoreState, b: StoreState, key: Key, entry: Entry)
    requires Wf(b.fs) && SameStore(a, b)
    ensures PutOutcome(a, b, key, entry, false, false)
  {
  }

  lemma ReplacedFitsCounter(st: StoreState, k: Key)
    requires ByteDrift(st) >= 0
    ensures PreviousOf(st.fs, k).bytes <= st.bytes
  {
    PreviousIsEntry(st.fs, k);
    ViewBytesDrop(View(st.fs), k);
  }

  /** The byte counter after a put: the new body in, the replaced one out. */
  lemma PutBytes(before: StoreState, job: PutJob, body: seq<Byte>, now: int, f: CommitFaults,
                 metaUnlinkFails: bool, bodyUnlinkFails: bool)
    requires Wf(before.fs) && FreshSuffixes(before, job.key, job.bodySuffix, job.metaSuffix)
    requires job.meta.bodyFile == GenerationName(job.key, job.bodySuffix) && job.meta.contentBytes == |body|
    ensures var ready := Prepared(Spooled(before, job.BodyFile(), body, now), job, now);
            var last := Closed(ready, job, f, metaUnlinkFails, bodyUnlinkFails);
            last.bytes == before.bytes
              + (if CommitOk(ready.fs, job, f) then |body| - PreviousOf(before.fs, job.key).bytes else 0)
  {
    SpooledIsReady(before, job, body, now);
  }
}
