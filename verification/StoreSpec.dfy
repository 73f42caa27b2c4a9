/** The disk protocol of the cache store: the syscalls each locked region issues, with the
    outcome of every syscall that can fail given as an input, and what they do to the view. */
module StoreSpec {
  import opened Basics
  import opened FileSystem
  import opened Totals

  // ---------------------------------------------------------------- accounting of a view

  ghost function Sizes(v: map<Key, Entry>): map<Key, nat> {
    map k | k in v :: |v[k].body|
  }

  /** What a full scan would count. */
  ghost function ViewBytes(v: map<Key, Entry>): nat { Total(Sizes(v)) }

  function SizeIn(v: map<Key, Entry>, k: Key): nat { if k in v then |v[k].body| else 0 }

  lemma CountDrop(v: map<Key, Entry>, k: Key)
    ensures |v - {k}| == |v| - (if k in v then 1 else 0)
  {
    assert (v - {k}).Keys == v.Keys - {k};
  }

  lemma SizesDrop(v: map<Key, Entry>, k: Key)
    ensures Sizes(v - {k}) == Sizes(v) - {k}
  {
  }

  lemma ViewBytesDrop(v: map<Key, Entry>, k: Key)
    ensures ViewBytes(v - {k}) == ViewBytes(v) - SizeIn(v, k)
    ensures |v - {k}| == |v| - (if k in v then 1 else 0)
  {
    CountDrop(v, k);
    SizesDrop(v, k);
    if k in v {
      TotalRemove(Sizes(v), k);
    } else {
      assert v - {k} == v;
    }
  }

  lemma ViewBytesPut(v: map<Key, Entry>, k: Key, e: Entry)
    ensures ViewBytes(v[k := e]) == ViewBytes(v) - SizeIn(v, k) + |e.body|
    ensures |v[k := e]| == |v| + (if k in v then 0 else 1)
  {
    var w := v[k := e];
    assert w - {k} == v - {k};
    ViewBytesDrop(v, k);
    ViewBytesDrop(w, k);
  }

  /** What a lookup that can read its files serves: a complete entry that has not expired. */
  function Served(fs: FS, key: Key, ttl: int, now: int): Option<Entry> {
    match Get(fs, key)
    case Some(e) => if now - e.meta.storedAt < ttl then Some(e) else None
    case None => None
  }

  // ---------------------------------------------------------------- views along a run

  /** Every state a crash could leave while acts run shows one of the allowed views. */
  ghost predicate Through(fs: FS, acts: seq<Action>, allowed: set<map<Key, Entry>>)
    decreases acts
  {
    View(fs) in allowed && (acts == [] || Through(Do(fs, acts[0]), acts[1..], allowed))
  }

  lemma {:induction false} ThroughPrefix(fs: FS, acts: seq<Action>, allowed: set<map<Key, Entry>>, n: nat)
    requires Through(fs, acts, allowed) && n <= |acts|
    ensures View(Run(fs, acts[..n])) in allowed
    decreases acts
  {
    if n > 0 {
      assert acts[..n][1..] == acts[1..][..n - 1];
      ThroughPrefix(Do(fs, acts[0]), acts[1..], allowed, n - 1);
    }
  }

  lemma {:induction false} ThroughConcat(fs: FS, a: seq<Action>, b: seq<Action>, allowed: set<map<Key, Entry>>)
    requires Through(fs, a, allowed) && Through(Run(fs, a), b, allowed)
    ensures Through(fs, a + b, allowed)
    decreases a
  {
    if a == [] {
      assert a + b == b;
    } else {
      assert (a + b)[1..] == a[1..] + b;
      ThroughConcat(Do(fs, a[0]), a[1..], b, allowed);
    }
  }

  lemma Step1(fs: FS, a: Action, allowed: set<map<Key, Entry>>)
    ensures Run(fs, [a]) == Do(fs, a)
    ensures View(fs) in allowed && View(Do(fs, a)) in allowed ==> Through(fs, [a], allowed)
  {
    assert [a][1..] == [];
  }

  lemma Step2(fs: FS, a: Action, b: Action, allowed: set<map<Key, Entry>>)
    ensures Run(fs, [a, b]) == Do(Do(fs, a), b)
    ensures (View(fs) in allowed && View(Do(fs, a)) in allowed && View(Do(Do(fs, a), b)) in allowed)
            ==> Through(fs, [a, b], allowed)
  {
    assert [a, b][1..] == [b];
    Step1(Do(fs, a), b, allowed);
  }

  lemma ThroughThree(fs: FS, a: seq<Action>, b: seq<Action>, c: seq<Action>, allowed: set<map<Key, Entry>>)
    requires Through(fs, a, allowed) && Through(Run(fs, a), b, allowed) && Through(Run(Run(fs, a), b), c, allowed)
    ensures Through(fs, a + b + c, allowed)
    ensures Run(fs, a + b + c) == Run(Run(Run(fs, a), b), c)
  {
    RunConcat(fs, a, b);
    RunConcat(fs, a + b, c);
    ThroughConcat(fs, a, b, allowed);
    ThroughConcat(fs, a + b, c, allowed);
  }

  /** An action that names only temporary files and files of key k. */
  predicate OnlyKey(a: Action, k: Key) {
    match a
    case Rename(p, q) => p.IsTemp() && !q.IsTemp() && q.key == k
    case Unlink(p) => p.IsTemp() || p.key == k
    case Chtimes(p, _) => p.IsTemp() || p.key == k
    case _ => true
  }

  lemma OnlyKeyAgrees(fs: FS, a: Action, k: Key)
    requires Wf(fs) && Legal(fs, a) && OnlyKey(a, k)
    ensures Wf(Do(fs, a)) && forall p :: At(Do(fs, a), p) == Effect(fs, a, p)
    ensures forall p: Path :: !p.IsTemp() && p.key != k ==> At(fs, p) == At(Do(fs, a), p)
  {
    DoEffect(fs, a);
  }

  lemma ViewChange(a: FS, b: FS, k: Key)
    requires forall p: Path :: !p.IsTemp() && p.key != k ==> At(a, p) == At(b, p)
    ensures Get(b, k).Some? ==> View(b) == View(a)[k := Get(b, k).value]
    ensures Get(b, k).None? ==> View(b) == View(a) - {k}
    ensures Get(b, k) == Get(a, k) ==> View(b) == View(a)
  {
    OtherKeysKeep(a, b, k);
    ViewIsGet(a, k);
  }

  lemma KeyStep(fs: FS, a: Action, k: Key)
    requires Wf(fs) && Legal(fs, a) && OnlyKey(a, k)
    ensures Wf(Do(fs, a)) && forall p :: At(Do(fs, a), p) == Effect(fs, a, p)
    ensures Get(Do(fs, a), k).Some? ==> View(Do(fs, a)) == View(fs)[k := Get(Do(fs, a), k).value]
    ensures Get(Do(fs, a), k).None? ==> View(Do(fs, a)) == View(fs) - {k}
    ensures Get(Do(fs, a), k) == Get(fs, k) ==> View(Do(fs, a)) == View(fs)
  {
    OnlyKeyAgrees(fs, a, k);
    ViewChange(fs, Do(fs, a), k);
  }

  // ---------------------------------------------------------------- committing a put

  /** A put whose two temporary files are written: what the commit region publishes. */
  datatype PutJob = PutJob(key: Key, bodySuffix: string, metaSuffix: string, meta: Metadata) {
    function BodyFile(): Path { BodyTemp(bodySuffix) }
    function Meta(): Path { MetaTemp(metaSuffix) }
    function Target(): Path { Generation(key, bodySuffix) }
  }

  /** true: that syscall fails. refused: the storage reservation does not commit. */
  datatype CommitFaults = CommitFaults(
    renameBody: bool, setTime: bool, removeTarget: bool,
    renameMeta: bool, removeMeta: bool, renameMetaAgain: bool,
    refused: bool, removePrevious: bool)

  const NO_FAULTS := CommitFaults(false, false, false, false, false, false, false, false)

  datatype Previous = Previous(path: Option<Path>, bytes: nat, valid: bool)

  /** The entry a commit replaces: counted only if its body is complete. */
  function PreviousOf(fs: FS, k: Key): Previous {
    match At(fs, MetaFile(k))
    case Some(Json(m)) =>
      (match BodyPath(k, m)
       case Some(p) =>
         (match At(fs, p)
          case Some(Bytes(b)) =>
            if |b| == m.contentBytes then Previous(Some(p), |b|, true) else Previous(Some(p), 0, false)
          case _ => Previous(Some(p), 0, false))
       case None => Previous(None, 0, false))
    case _ => Previous(None, 0, false)
  }

  lemma PreviousIsEntry(fs: FS, k: Key)
    ensures PreviousOf(fs, k).valid <==> k in View(fs)
    ensures PreviousOf(fs, k).bytes == SizeIn(View(fs), k)
  {
    ViewIsGet(fs, k);
  }

  /** replace: rename, and if that fails with the target present, remove it and rename again. */
  function ReplaceActs(present: bool, from: Path, to: Path, f: CommitFaults): seq<Action> {
    if !f.renameMeta then [Rename(from, to)]
    else if present then
      if f.removeMeta then []
      else if f.renameMetaAgain then [Unlink(to)]
      else [Unlink(to), Rename(from, to)]
    else if f.renameMetaAgain then [] else [Rename(from, to)]
  }

  predicate ReplaceOk(present: bool, f: CommitFaults) {
    !f.renameMeta || (!f.renameMetaAgain && (present ==> !f.removeMeta))
  }

  /** All files are in place, so that the reservation is asked to commit. */
  predicate Attempted(fs: FS, job: PutJob, f: CommitFaults) {
    !f.renameBody && !f.setTime && ReplaceOk(MetaFile(job.key) in fs.names, f)
  }

  predicate CommitOk(fs: FS, job: PutJob, f: CommitFaults) { Attempted(fs, job, f) && !f.refused }

  function UndoActs(job: PutJob, f: CommitFaults): seq<Action> {
    if f.removeTarget then [] else [Unlink(job.Target())]
  }

  function Retired(job: PutJob, previous: Option<Path>, f: CommitFaults): seq<Action> {
    if previous.Some? && previous.value != job.Target() && !f.removePrevious then [Unlink(previous.value)] else []
  }

  function RetireActs(fs: FS, job: PutJob, f: CommitFaults): seq<Action> {
    Retired(job, PreviousOf(fs, job.key).path, f)
  }

  function CloseActs(fs: FS, job: PutJob, f: CommitFaults): seq<Action> {
    if CommitOk(fs, job, f) then RetireActs(fs, job, f) else UndoActs(job, f)
  }

  /** The body is in place and dated before the metadata can name it. */
  function PlaceActs(job: PutJob): seq<Action> {
    [Rename(job.BodyFile(), job.Target()), Chtimes(job.Target(), job.meta.storedAt)]
  }

  function CommitActs(fs: FS, job: PutJob, f: CommitFaults): seq<Action> {
    var present := MetaFile(job.key) in fs.names;
    if f.renameBody then []
    else if f.setTime then [Rename(job.BodyFile(), job.Target())] + UndoActs(job, f)
    else PlaceActs(job) + ReplaceActs(present, job.Meta(), MetaFile(job.key), f) + CloseActs(fs, job, f)
  }

  /** What a put has established when it enters the commit region. The last two lines are the
      freshness of the temporary file's random suffix: no generation of this key ever had it. */
  ghost predicate Ready(fs: FS, job: PutJob, body: seq<Byte>) {
    && Wf(fs)
    && '/' !in job.key && '/' !in job.bodySuffix
    && At(fs, job.BodyFile()) == Some(Bytes(body))
    && At(fs, job.Meta()) == Some(Json(job.meta))
    && job.meta.bodyFile == GenerationName(job.key, job.bodySuffix)
    && job.meta.contentBytes == |body|
    && job.Target() !in fs.names
    && PreviousOf(fs, job.key).path != Some(job.Target())
  }

  /** The state once the body is placed: the put's body sits at its target, unnamed as yet. */
  ghost predicate Placed(fs: FS, job: PutJob, body: seq<Byte>) {
    && Wf(fs)
    && At(fs, job.Target()) == Some(Bytes(body))
    && At(fs, job.Meta()) == Some(Json(job.meta))
    && BodyPath(job.key, job.meta) == Some(job.Target())
    && job.meta.contentBytes == |body|
    && PreviousOf(fs, job.key).path != Some(job.Target())
  }

  /** A body that the key's metadata does not name is not part of its entry. */
  lemma UnnamedBodyIsInvisible(a: FS, b: FS, k: Key, p: Path)
    requires p.IsBody() && PreviousOf(a, k).path != Some(p)
    requires forall q: Path :: !q.IsTemp() && q != p ==> At(a, q) == At(b, q)
    ensures Get(b, k) == Get(a, k) && PreviousOf(b, k) == PreviousOf(a, k)
  {
    assert At(a, MetaFile(k)) == At(b, MetaFile(k));
  }

  lemma PlaceBodyShows(fs: FS, job: PutJob, body: seq<Byte>)
    requires Ready(fs, job, body)
    ensures var r := Do(fs, Rename(job.BodyFile(), job.Target()));
            View(r) == View(fs) && PreviousOf(r, job.key) == PreviousOf(fs, job.key)
  {
    var r := Do(fs, Rename(job.BodyFile(), job.Target()));
    DoEffect(fs, Rename(job.BodyFile(), job.Target()));
    UnnamedBodyIsInvisible(fs, r, job.key, job.Target());
    ViewChange(fs, r, job.key);
  }

  lemma PlaceBody(fs: FS, job: PutJob, body: seq<Byte>)
    requires Ready(fs, job, body)
    ensures var r := Do(fs, Rename(job.BodyFile(), job.Target()));
            Placed(r, job, body) && View(r) == View(fs) && PreviousOf(r, job.key) == PreviousOf(fs, job.key)
  {
    DoEffect(fs, Rename(job.BodyFile(), job.Target()));
    PlaceBodyShows(fs, job, body);
    GenerationRoundTrip(job.key, job.bodySuffix, job.meta);
  }

  lemma DateBody(fs: FS, job: PutJob, body: seq<Byte>, t: int)
    requires Placed(fs, job, body)
    ensures var r := Do(fs, Chtimes(job.Target(), t));
            Placed(r, job, body) && View(r) == View(fs) && PreviousOf(r, job.key) == PreviousOf(fs, job.key)
  {
    KeyStep(fs, Chtimes(job.Target(), t), job.key);
  }

  /** Taking an unnamed body away again is invisible. */
  lemma UndoBody(fs: FS, job: PutJob, body: seq<Byte>)
    requires Placed(fs, job, body)
    ensures View(Do(fs, Unlink(job.Target()))) == View(fs)
  {
    KeyStep(fs, Unlink(job.Target()), job.key);
  }

  ghost function Published(v: map<Key, Entry>, job: PutJob, body: seq<Byte>): map<Key, Entry> {
    v[job.key := Entry(job.meta, body)]
  }

  lemma PublishOverDropped(v: map<Key, Entry>, job: PutJob, body: seq<Byte>)
    ensures Published(v - {job.key}, job, body) == Published(v, job, body)
    ensures Published(v, job, body) - {job.key} == v - {job.key}
  {
  }

  /** The state after the metadata rename: the key is served from the new generation. */
  ghost predicate Live(fs: FS, job: PutJob, body: seq<Byte>) {
    && Wf(fs)
    && At(fs, MetaFile(job.key)) == Some(Json(job.meta))
    && At(fs, job.Target()) == Some(Bytes(body))
    && BodyPath(job.key, job.meta) == Some(job.Target())
    && job.meta.contentBytes == |body|
  }

  lemma PublishMeta(fs: FS, job: PutJob, body: seq<Byte>)
    requires Placed(fs, job, body)
    ensures var r := Do(fs, Rename(job.Meta(), MetaFile(job.key)));
            Live(r, job, body) && View(r) == Published(View(fs), job, body)
  {
    KeyStep(fs, Rename(job.Meta(), MetaFile(job.key)), job.key);
  }

  lemma DropMeta(fs: FS, job: PutJob, body: seq<Byte>)
    requires Placed(fs, job, body)
    ensures var r := Do(fs, Unlink(MetaFile(job.key)));
            Placed(r, job, body) && View(r) == View(fs) - {job.key}
  {
    KeyStep(fs, Unlink(MetaFile(job.key)), job.key);
  }

  /** The superseded body is not what the key is served from. */
  lemma RetireBody(fs: FS, job: PutJob, body: seq<Byte>, p: Path)
    requires Live(fs, job, body) && p.IsBody() && p.key == job.key && p != job.Target()
    ensures View(Do(fs, Unlink(p))) == View(fs)
  {
    KeyStep(fs, Unlink(p), job.key);
  }

  lemma RefuseBody(fs: FS, job: PutJob, body: seq<Byte>)
    requires Live(fs, job, body)
    ensures View(Do(fs, Unlink(job.Target()))) == View(fs) - {job.key}
  {
    KeyStep(fs, Unlink(job.Target()), job.key);
  }

  /** replace removed the old metadata and then could not put the new in its place. */
  predicate FallbackLoses(f: CommitFaults) {
    !f.renameBody && !f.setTime && f.renameMeta && !f.removeMeta && f.renameMetaAgain
  }

  /** The view a commit leaves, as its faults determine it: the old one, the one with the new
      entry, or - after the fallback, or a refusal whose clean-up works - the one without the key. */
  ghost function CommitView(v: map<Key, Entry>, present: bool, job: PutJob, body: seq<Byte>, f: CommitFaults)
    : map<Key, Entry>
  {
    if f.renameBody || f.setTime then v
    else if ReplaceOk(present, f) then
      if f.refused && !f.removeTarget then v - {job.key} else Published(v, job, body)
    else if FallbackLoses(f) then v - {job.key}
    else v
  }

  /** The views a commit may pass through: old, new, and - only if the fallback removes the old
      metadata or the reservation is refused - neither. */
  ghost function CommitViews(v: map<Key, Entry>, job: PutJob, body: seq<Byte>, f: CommitFaults): set<map<Key, Entry>> {
    {v, Published(v, job, body)} + (if (f.renameMeta && !f.removeMeta) || f.refused then {v - {job.key}} else {})
  }

  lemma AbsentMetaIsNoEntry(fs: FS, k: Key)
    ensures MetaFile(k) !in fs.names ==> View(fs) - {k} == View(fs)
  {
    ViewIsGet(fs, k);
    DropAbsent(View(fs), k);
  }

  lemma ReplaceDirect(fs: FS, job: PutJob, body: seq<Byte>, allowed: set<map<Key, Entry>>)
    requires Placed(fs, job, body) && View(fs) in allowed && Published(View(fs), job, body) in allowed
    ensures var acts := [Rename(job.Meta(), MetaFile(job.key))];
            && Through(fs, acts, allowed)
            && Live(Run(fs, acts), job, body) && View(Run(fs, acts)) == Published(View(fs), job, body)
  {
    PublishMeta(fs, job, body);
    Step1(fs, Rename(job.Meta(), MetaFile(job.key)), allowed);
  }

  lemma ReplaceLoses(fs: FS, job: PutJob, body: seq<Byte>, allowed: set<map<Key, Entry>>)
    requires Placed(fs, job, body) && View(fs) in allowed && View(fs) - {job.key} in allowed
    ensures var acts := [Unlink(MetaFile(job.key))];
            && Through(fs, acts, allowed)
            && Placed(Run(fs, acts), job, body) && View(Run(fs, acts)) == View(fs) - {job.key}
  {
    DropMeta(fs, job, body);
    Step1(fs, Unlink(MetaFile(job.key)), allowed);
  }

  lemma ReplaceRetries(fs: FS, job: PutJob, body: seq<Byte>, unlink: seq<Action>, rename: seq<Action>,
                       allowed: set<map<Key, Entry>>)
    requires unlink == [Unlink(MetaFile(job.key))] && rename == [Rename(job.Meta(), MetaFile(job.key))]
    requires Placed(fs, job, body)
    requires View(fs) in allowed && View(fs) - {job.key} in allowed && Published(View(fs), job, body) in allowed
    ensures Through(fs, unlink + rename, allowed)
    ensures Live(Run(fs, unlink + rename), job, body)
    ensures View(Run(fs, unlink + rename)) == Published(View(fs), job, body)
  {
    ReplaceLoses(fs, job, body, allowed);
    PublishOverDropped(View(fs), job, body);
    ReplaceDirect(Run(fs, unlink), job, body, allowed);
    ThroughConcat(fs, unlink, rename, allowed);
    RunConcat(fs, unlink, rename);
  }

  /** replace: the new entry is live if it worked; otherwise the old one is gone exactly if its
      metadata was removed before the second rename failed. */
  lemma ReplacePublishes(fs: FS, job: PutJob, body: seq<Byte>, f: CommitFaults, allowed: set<map<Key, Entry>>)
    requires Placed(fs, job, body) && allowed == CommitViews(View(fs), job, body, f)
    ensures var present := MetaFile(job.key) in fs.names;
            var acts := ReplaceActs(present, job.Meta(), MetaFile(job.key), f);
            var r := Run(fs, acts);
            && Through(fs, acts, allowed)
            && (ReplaceOk(present, f) ==> Live(r, job, body) && View(r) == Published(View(fs), job, body))
            && (!ReplaceOk(present, f) ==>
                  Placed(r, job, body) && View(r) == if f.removeMeta then View(fs) else View(fs) - {job.key})
  {
    if !f.renameMeta {
      ReplaceDirect(fs, job, body, allowed);
    } else if MetaFile(job.key) in fs.names {
      if !f.removeMeta {
        if f.renameMetaAgain {
          ReplaceLoses(fs, job, body, allowed);
        } else {
          var unlink, rename := [Unlink(MetaFile(job.key))], [Rename(job.Meta(), MetaFile(job.key))];
          assert unlink + rename == ReplaceActs(true, job.Meta(), MetaFile(job.key), f);
          ReplaceRetries(fs, job, body, unlink, rename, allowed);
        }
      }
    } else if !f.renameMetaAgain {
      ReplaceDirect(fs, job, body, allowed);
    } else {
      AbsentMetaIsNoEntry(fs, job.key);
    }
  }

  lemma CloseCommit(fs: FS, r: FS, job: PutJob, body: seq<Byte>, f: CommitFaults, allowed: set<map<Key, Entry>>)
    requires allowed == CommitViews(View(fs), job, body, f)
    requires !f.renameBody && !f.setTime
    requires ReplaceOk(MetaFile(job.key) in fs.names, f) ==>
               Live(r, job, body) && View(r) == Published(View(fs), job, body)
    requires !ReplaceOk(MetaFile(job.key) in fs.names, f) ==>
               Placed(r, job, body) && View(r) == if f.removeMeta then View(fs) else View(fs) - {job.key}
    ensures Through(r, CloseActs(fs, job, f), allowed)
    ensures View(Run(r, CloseActs(fs, job, f))) == CommitView(View(fs), MetaFile(job.key) in fs.names, job, body, f)
  {
    AbsentMetaIsNoEntry(fs, job.key);
    var tail := CloseActs(fs, job, f);
    if tail != [] {
      var a := tail[0];
      assert tail == [a];
      if CommitOk(fs, job, f) {
        RetireBody(r, job, body, a.path);
      } else if ReplaceOk(MetaFile(job.key) in fs.names, f) {
        RefuseBody(r, job, body);
        PublishOverDropped(View(fs), job, body);
      } else {
        UndoBody(r, job, body);
      }
      Step1(r, a, allowed);
    }
  }

  lemma CommitPlaced(fs: FS, job: PutJob, body: seq<Byte>, f: CommitFaults, allowed: set<map<Key, Entry>>)
    requires Ready(fs, job, body) && !f.renameBody && !f.setTime
    requires allowed == CommitViews(View(fs), job, body, f)
    ensures Through(fs, CommitActs(fs, job, f), allowed)
    ensures View(Run(fs, CommitActs(fs, job, f))) == CommitView(View(fs), MetaFile(job.key) in fs.names, job, body, f)
  {
    var placed := Run(fs, PlaceActs(job));
    PlaceAll(fs, job, body, allowed);
    var middle := ReplaceActs(MetaFile(job.key) in fs.names, job.Meta(), MetaFile(job.key), f);
    ReplacePublishes(placed, job, body, f, allowed);
    CloseCommit(fs, Run(placed, middle), job, body, f, allowed);
    ThroughThree(fs, PlaceActs(job), middle, CloseActs(fs, job, f), allowed);
  }

  lemma PlaceKeepsMetaNames(fs: FS, job: PutJob, k: Key)
    ensures MetaFile(k) in Run(fs, PlaceActs(job)).names <==> MetaFile(k) in fs.names
  {
    Step2(fs, PlaceActs(job)[0], PlaceActs(job)[1], {});
  }

  lemma PlaceAll(fs: FS, job: PutJob, body: seq<Byte>, allowed: set<map<Key, Entry>>)
    requires Ready(fs, job, body) && View(fs) in allowed
    ensures var placed := Run(fs, PlaceActs(job));
            && Through(fs, PlaceActs(job), allowed)
            && Placed(placed, job, body) && View(placed) == View(fs)
            && (MetaFile(job.key) in placed.names <==> MetaFile(job.key) in fs.names)
  {
    var place, date := Rename(job.BodyFile(), job.Target()), Chtimes(job.Target(), job.meta.storedAt);
    PlaceBody(fs, job, body);
    DateBody(Do(fs, place), job, body, job.meta.storedAt);
    PlaceKeepsMetaNames(fs, job, job.key);
    Step2(fs, place, date, allowed);
  }

  /** Crash atomicity of a commit. Whatever fails and wherever execution stops, the store shows
      the old view, the view with the new entry, or the view without the key; and which of them
      it ends in is determined by what failed. */
  lemma CommitIsAtomic(fs: FS, job: PutJob, body: seq<Byte>, f: CommitFaults)
    requires Ready(fs, job, body)
    ensures Through(fs, CommitActs(fs, job, f), CommitViews(View(fs), job, body, f))
    ensures View(Run(fs, CommitActs(fs, job, f))) == CommitView(View(fs), MetaFile(job.key) in fs.names, job, body, f)
  {
    var allowed := CommitViews(View(fs), job, body, f);
    var place, undo := Rename(job.BodyFile(), job.Target()), Unlink(job.Target());
    if !f.renameBody && f.setTime {
      PlaceBody(fs, job, body);
      UndoBody(Do(fs, place), job, body);
      Step1(fs, place, allowed);
      Step2(fs, place, undo, allowed);
      assert [place] + [undo] == [place, undo] && [place] + [] == [place];
    } else if !f.renameBody {
      CommitPlaced(fs, job, body, f, allowed);
    }
  }

  /** A put that is not refused loses the entry it was to replace exactly if the first metadata
      rename failed, the old metadata was removed, and the second rename failed too. */
  lemma CommitLosesIffFallbackFails(fs: FS, job: PutJob, body: seq<Byte>, f: CommitFaults)
    requires Ready(fs, job, body) && !f.refused && job.key in View(fs)
    ensures job.key !in View(Run(fs, CommitActs(fs, job, f))) <==> FallbackLoses(f)
  {
    CommitIsAtomic(fs, job, body, f);
    ViewIsGet(fs, job.key);
  }

  /** A commit that reports an error leaves the new entry behind exactly if everything was published,
      the reservation refused, and the body could not be taken away again. */
  lemma FailedCommitPublishesIffRefusalSticks(fs: FS, job: PutJob, body: seq<Byte>, f: CommitFaults)
    requires Ready(fs, job, body) && !CommitOk(fs, job, f)
    ensures Get(Run(fs, CommitActs(fs, job, f)), job.key) == Some(Entry(job.meta, body))
       <==> Attempted(fs, job, f) && f.refused && f.removeTarget
  {
    var after := Run(fs, CommitActs(fs, job, f));
    CommitIsAtomic(fs, job, body, f);
    NewEntryDiffers(fs, job, body);
    ViewIsGet(after, job.key);
    ViewIsGet(fs, job.key);
  }

  lemma NewEntryDiffers(fs: FS, job: PutJob, body: seq<Byte>)
    requires Ready(fs, job, body)
    ensures Get(fs, job.key) != Some(Entry(job.meta, body))
  {
    GenerationRoundTrip(job.key, job.bodySuffix, job.meta);
  }

  function FreshJob(body: seq<Byte>): PutJob {
    PutJob("k", "8", "9", Metadata(200, map[], 2, |body|, "", GenerationName("k", "8")))
  }

  /** A directory with nothing but one put ready to commit, to show that the cases above occur. */
  function OnlyAPut(body: seq<Byte>): FS {
    FS(map[BodyTemp("8") := 0, MetaTemp("9") := 1],
       map[0 := File(Bytes(body), 1), 1 := File(Json(FreshJob(body).meta), 1)], 2)
  }

  /** The same beside an entry that the put would replace. */
  function PutOverEntry(previous: seq<Byte>, body: seq<Byte>): FS {
    FS(map[BodyTemp("8") := 0, MetaTemp("9") := 1, MetaFile("k") := 2, LegacyBody("k") := 3],
       map[0 := File(Bytes(body), 1), 1 := File(Json(FreshJob(body).meta), 1),
           2 := File(Json(Metadata(200, map[], 1, |previous|, "", "")), 1), 3 := File(Bytes(previous), 1)], 4)
  }

  lemma OnlyAPutIsReady(body: seq<Byte>)
    ensures Ready(OnlyAPut(body), FreshJob(body), body)
    ensures Get(OnlyAPut(body), "k") == None
  {
    assert PreviousOf(OnlyAPut(body), "k").path == None;
  }

  lemma PutOverEntryIsReady(previous: seq<Byte>, body: seq<Byte>)
    ensures Ready(PutOverEntry(previous, body), FreshJob(body), body)
  {
    PreviousOfPut(previous, body);
  }

  lemma PreviousOfPut(previous: seq<Byte>, body: seq<Byte>)
    ensures PreviousOf(PutOverEntry(previous, body), "k").path == Some(LegacyBody("k"))
    ensures Get(PutOverEntry(previous, body), "k") == Some(Entry(Metadata(200, map[], 1, |previous|, "", ""), previous))
  {
  }

  /** The exception occurs: a refused commit whose clean-up fails serves the entry it reported
      as failed. */
  lemma RefusedCommitCanPublish(body: seq<Byte>)
    ensures var fs, job, f := OnlyAPut(body), FreshJob(body), NO_FAULTS.(refused := true, removeTarget := true);
            !CommitOk(fs, job, f) && Get(fs, "k") == None
            && Get(Run(fs, CommitActs(fs, job, f)), "k") == Some(Entry(job.meta, body))
  {
    OnlyAPutIsReady(body);
    var f := NO_FAULTS.(refused := true, removeTarget := true);
    FailedCommitPublishesIffRefusalSticks(OnlyAPut(body), FreshJob(body), body, f);
  }

  const FALLBACK_FAILS := NO_FAULTS.(renameMeta := true, renameMetaAgain := true)

  /** And so does the loss: an entry that was served is gone after a put that failed. */
  lemma FailedCommitCanLose(previous: seq<Byte>, body: seq<Byte>)
    ensures var fs := PutOverEntry(previous, body);
            "k" in View(fs) && "k" !in View(Run(fs, CommitActs(fs, FreshJob(body), FALLBACK_FAILS)))
  {
    PutOverEntryIsReady(previous, body);
    PreviousOfPut(previous, body);
    ViewIsGet(PutOverEntry(previous, body), "k");
    CommitLosesIffFallbackFails(PutOverEntry(previous, body), FreshJob(body), body, FALLBACK_FAILS);
  }

  /** The suffix of a temporary file must never have been a generation of the same key: reusing
      the suffix of the live generation serves the new body under the old metadata. */
  lemma ReusedSuffixMixesEntries()
    ensures exists fs: FS, job: PutJob, e: Entry, body: seq<Byte> ::
              && Wf(fs) && Get(fs, job.key) == Some(e) && At(fs, job.BodyFile()) == Some(Bytes(body))
              && PreviousOf(fs, job.key).path == Some(job.Target())
              && body != e.body
              && Get(Do(fs, Rename(job.BodyFile(), job.Target())), job.key) == Some(Entry(e.meta, body))
  {
    var first: seq<Byte>, second: seq<Byte> := [1], [2];
    var m := Metadata(200, map[], 1, 1, "", GenerationName("k", "7"));
    var job := PutJob("k", "7", "8", m);
    var fs := FS(map[MetaFile("k") := 0, Generation("k", "7") := 1, BodyTemp("7") := 2],
                 map[0 := File(Json(m), 1), 1 := File(Bytes(first), 1), 2 := File(Bytes(second), 2)], 3);
    GenerationRoundTrip("k", "7", m);
    assert first[0] != second[0];
    assert BodyPath("k", m) == Some(Generation("k", "7"));
    var e := Entry(m, first);
    assert Wf(fs) && Get(fs, job.key) == Some(e) && At(fs, job.BodyFile()) == Some(Bytes(second));
    assert Get(Do(fs, Rename(job.BodyFile(), job.Target())), job.key) == Some(Entry(e.meta, second));
  }

  // ---------------------------------------------------------------- removing an entry

  /** Body first, so that an interrupted removal leaves metadata without a body: a miss. */
  function EvictActs(k: Key, body: Path, bodyFails: bool, metaFails: bool): seq<Action> {
    if bodyFails then [] else if metaFails then [Unlink(body)] else [Unlink(body), Unlink(MetaFile(k))]
  }

  lemma EvictIsAtomic(fs: FS, k: Key, e: Entry, body: Path, bodyFails: bool, metaFails: bool)
    requires Wf(fs) && Get(fs, k) == Some(e) && BodyPath(k, e.meta) == Some(body)
    ensures Through(fs, EvictActs(k, body, bodyFails, metaFails), {View(fs), View(fs) - {k}})
    ensures View(Run(fs, EvictActs(k, body, bodyFails, metaFails)))
         == if bodyFails then View(fs) else View(fs) - {k}
  {
    var allowed := {View(fs), View(fs) - {k}};
    var a, b := Unlink(body), Unlink(MetaFile(k));
    KeyStep(fs, a, k);
    KeyStep(Do(fs, a), b, k);
    Step1(fs, a, allowed);
    Step2(fs, a, b, allowed);
  }

  /** An observed complete entry, as pressure collection remembers it. */
  datatype Candidate = Candidate(key: Key, bodyPath: Path, bytes: nat, lastUsed: int)

  /** The candidate a listing produces for a complete entry. */
  function CandidateOf(fs: FS, k: Key, e: Entry): Candidate {
    var p := match BodyPath(k, e.meta) case Some(q) => q case None => LegacyBody(k);
    Candidate(k, p, |e.body|, if MtimeAt(fs, p) == 0 then e.meta.storedAt else MtimeAt(fs, p))
  }

  /** The metadata still names the observed generation. */
  predicate StillNames(fs: FS, c: Candidate) {
    match At(fs, MetaFile(c.key))
    case Some(Json(m)) => BodyPath(c.key, m) == Some(c.bodyPath) && m.contentBytes == c.bytes
    case _ => false
  }

  predicate WillRemove(fs: FS, c: Candidate, bodyFails: bool) {
    StillNames(fs, c) && c.bodyPath in fs.names && !bodyFails
  }

  function RemoveActs(fs: FS, c: Candidate, bodyFails: bool, metaFails: bool): seq<Action> {
    if WillRemove(fs, c, bodyFails) then EvictActs(c.key, c.bodyPath, false, metaFails) else []
  }

  /** If the file a candidate saw exists at all, it still has the size the candidate saw. */
  predicate Truthful(fs: FS, c: Candidate) {
    c.bodyPath in fs.names ==> At(fs, c.bodyPath).Some? && At(fs, c.bodyPath).value.Bytes?
                               && |At(fs, c.bodyPath).value.bytes| == c.bytes
  }

  /** The generation a key is currently served from. */
  function CurrentBody(fs: FS, k: Key): Option<Path> {
    match Get(fs, k) case Some(e) => BodyPath(k, e.meta) case None => None
  }

  /** RemoveCandidate takes away exactly the generation the candidate named, or nothing. */
  lemma RemoveOnlyNamedGeneration(fs: FS, c: Candidate, bodyFails: bool, metaFails: bool)
    requires Wf(fs) && Truthful(fs, c)
    ensures var acts := RemoveActs(fs, c, bodyFails, metaFails);
            && Through(fs, acts, {View(fs), View(fs) - {c.key}})
            && View(Run(fs, acts)) == (if WillRemove(fs, c, bodyFails) then View(fs) - {c.key} else View(fs))
    ensures WillRemove(fs, c, bodyFails) <==> CurrentBody(fs, c.key) == Some(c.bodyPath) && !bodyFails
    ensures WillRemove(fs, c, bodyFails) ==> c.key in View(fs) && |View(fs)[c.key].body| == c.bytes
  {
    ViewIsGet(fs, c.key);
    if WillRemove(fs, c, bodyFails) {
      EvictIsAtomic(fs, c.key, Get(fs, c.key).value, c.bodyPath, false, metaFails);
    }
  }

  // ---------------------------------------------------------------- age collection of one key

  datatype Verdict = Keep | Skip | Expired(body: Path, size: nat)

  /** What GC decides on reading one metadata file. */
  function Judge(fs: FS, k: Key, cutoff: int): Verdict {
    match At(fs, MetaFile(k))
    case None => Keep
    case Some(Bytes(_)) => Skip
    case Some(Json(m)) =>
      if m.storedAt == 0 || m.storedAt > cutoff then Keep
      else match BodyPath(k, m)
        case None => Skip
        case Some(p) =>
          (match At(fs, p)
           case Some(Bytes(b)) => if |b| == m.contentBytes then Expired(p, |b|) else Skip
           case _ => Skip)
  }

  predicate IsExpired(e: Entry, cutoff: int) { e.meta.storedAt != 0 && e.meta.storedAt <= cutoff }

  function CollectActs(fs: FS, k: Key, cutoff: int, bodyFails: bool, metaFails: bool): seq<Action> {
    match Judge(fs, k, cutoff)
    case Expired(p, _) => EvictActs(k, p, bodyFails, metaFails)
    case _ => []
  }

  /** Age collection removes a key exactly when it serves an entry stored at or before the cutoff. */
  lemma CollectIsAtomic(fs: FS, k: Key, cutoff: int, bodyFails: bool, metaFails: bool)
    requires Wf(fs)
    ensures Judge(fs, k, cutoff).Expired? <==> k in View(fs) && IsExpired(View(fs)[k], cutoff)
    ensures Judge(fs, k, cutoff).Expired? ==> Judge(fs, k, cutoff).size == |View(fs)[k].body|
    ensures var acts := CollectActs(fs, k, cutoff, bodyFails, metaFails);
            && Through(fs, acts, {View(fs), View(fs) - {k}})
            && View(Run(fs, acts)) == if Judge(fs, k, cutoff).Expired? && !bodyFails then View(fs) - {k} else View(fs)
    ensures Judge(fs, k, cutoff).Expired? <==>
              k in View(fs) && View(fs)[k].meta.storedAt != 0 && View(fs)[k].meta.storedAt <= cutoff
    ensures Judge(fs, k, cutoff).Skip? <==>
              match At(fs, MetaFile(k))
              case Some(Json(m)) => m.storedAt != 0 && m.storedAt <= cutoff && k !in View(fs)
              case Some(Bytes(_)) => true
              case None => false
  {
    ViewIsGet(fs, k);
    if Judge(fs, k, cutoff).Expired? {
      EvictIsAtomic(fs, k, Get(fs, k).value, Judge(fs, k, cutoff).body, bodyFails, metaFails);
    }
  }

  // ---------------------------------------------------------------- the store's state

  /** The directory, the O(1) usage counters and the names of temporary files in use. */
  datatype StoreState = StoreState(fs: FS, bytes: int, objects: int, active: set<Path>)

  function AfterCommit(st: StoreState, job: PutJob, f: CommitFaults): StoreState {
    var previous := PreviousOf(st.fs, job.key);
    var fs := Run(st.fs, CommitActs(st.fs, job, f));
    if CommitOk(st.fs, job, f)
    then st.(fs := fs, bytes := st.bytes + job.meta.contentBytes - previous.bytes,
             objects := st.objects + (if previous.valid then 0 else 1))
    else st.(fs := fs)
  }

  function AfterRemoval(st: StoreState, c: Candidate, bodyFails: bool, metaFails: bool): StoreState {
    var fs := Run(st.fs, RemoveActs(st.fs, c, bodyFails, metaFails));
    if WillRemove(st.fs, c, bodyFails)
    then st.(fs := fs, bytes := st.bytes - c.bytes, objects := st.objects - 1)
    else st.(fs := fs)
  }

  function AfterCollection(st: StoreState, k: Key, cutoff: int, bodyFails: bool, metaFails: bool): StoreState {
    var fs := Run(st.fs, CollectActs(st.fs, k, cutoff, bodyFails, metaFails));
    match Judge(st.fs, k, cutoff)
    case Expired(_, size) =>
      if bodyFails then st.(fs := fs) else st.(fs := fs, bytes := st.bytes - size, objects := st.objects - 1)
    case _ => st.(fs := fs)
  }

  /** How far the counters stand above a full scan. */
  ghost function ByteDrift(st: StoreState): int { st.bytes - ViewBytes(View(st.fs)) }
  ghost function ObjectDrift(st: StoreState): int { st.objects - |View(st.fs)| }

  /** What a commit takes from the disk and leaves in the counters. */
  predicate Loses(fs: FS, job: PutJob, f: CommitFaults) { FallbackLoses(f) && PreviousOf(fs, job.key).valid }

  /** It loses exactly if the key is served before and not after. */
  lemma LosesIffDropped(fs: FS, job: PutJob, body: seq<Byte>, f: CommitFaults)
    requires Ready(fs, job, body) && !f.refused
    ensures Loses(fs, job, f) <==> job.key in View(fs) && job.key !in View(Run(fs, CommitActs(fs, job, f)))
  {
    PreviousIsEntry(fs, job.key);
    if job.key in View(fs) { CommitLosesIffFallbackFails(fs, job, body, f); }
  }

  /** A commit keeps the counters in step with the scan, except that the fallback leaves them above
      it by exactly the complete entry it lost. */
  lemma CommitKeepsCounters(st: StoreState, job: PutJob, body: seq<Byte>, f: CommitFaults)
    requires Ready(st.fs, job, body) && !f.refused
    ensures var st' := AfterCommit(st, job, f);
            && ByteDrift(st') == ByteDrift(st) + (if Loses(st.fs, job, f) then SizeIn(View(st.fs), job.key) else 0)
            && ObjectDrift(st') == ObjectDrift(st) + (if Loses(st.fs, job, f) then 1 else 0)
  {
    CommitIsAtomic(st.fs, job, body, f);
    PreviousIsEntry(st.fs, job.key);
    ViewBytesPut(View(st.fs), job.key, Entry(job.meta, body));
    ViewBytesDrop(View(st.fs), job.key);
    DropAbsent(View(st.fs), job.key);
  }

  lemma DropAbsent(v: map<Key, Entry>, k: Key)
    ensures k !in v ==> v - {k} == v
  {
  }

  lemma DropKeepsDrift(before: StoreState, after: StoreState, k: Key)
    requires k in View(before.fs) && View(after.fs) == View(before.fs) - {k}
    requires after.bytes == before.bytes - SizeIn(View(before.fs), k) && after.objects == before.objects - 1
    ensures ByteDrift(after) == ByteDrift(before) && ObjectDrift(after) == ObjectDrift(before)
  {
    ViewBytesDrop(View(before.fs), k);
  }

  lemma RemoveKeepsCounters(st: StoreState, c: Candidate, bodyFails: bool, metaFails: bool)
    requires Wf(st.fs) && Truthful(st.fs, c)
    ensures ByteDrift(AfterRemoval(st, c, bodyFails, metaFails)) == ByteDrift(st)
    ensures ObjectDrift(AfterRemoval(st, c, bodyFails, metaFails)) == ObjectDrift(st)
  {
    RemoveOnlyNamedGeneration(st.fs, c, bodyFails, metaFails);
    if WillRemove(st.fs, c, bodyFails) {
      DropKeepsDrift(st, AfterRemoval(st, c, bodyFails, metaFails), c.key);
    }
  }

  lemma CollectKeepsCounters(st: StoreState, k: Key, cutoff: int, bodyFails: bool, metaFails: bool)
    requires Wf(st.fs)
    ensures ByteDrift(AfterCollection(st, k, cutoff, bodyFails, metaFails)) == ByteDrift(st)
    ensures ObjectDrift(AfterCollection(st, k, cutoff, bodyFails, metaFails)) == ObjectDrift(st)
  {
    CollectIsAtomic(st.fs, k, cutoff, bodyFails, metaFails);
    if Judge(st.fs, k, cutoff).Expired? && !bodyFails {
      DropKeepsDrift(st, AfterCollection(st, k, cutoff, bodyFails, metaFails), k);
    }
  }

  /** Collecting one key leaves the files of every other key alone. */
  lemma CollectTouchesOneKey(fs: FS, k: Key, cutoff: int, bodyFails: bool, metaFails: bool, j: Key)
    requires Wf(fs) && j != k
    ensures var r := Run(fs, CollectActs(fs, k, cutoff, bodyFails, metaFails));
            Wf(r) && forall p: Path :: !p.IsTemp() && p.key == j ==> At(r, p) == At(fs, p)
  {
    if Judge(fs, k, cutoff).Expired? {
      var a, b := Unlink(Judge(fs, k, cutoff).body), Unlink(MetaFile(k));
      OnlyKeyAgrees(fs, a, k);
      OnlyKeyAgrees(Do(fs, a), b, k);
      Step1(fs, a, {});
      Step2(fs, a, b, {});
    }
  }
}
