/** The cache store itself: the directory and counters, updated in place one syscall at a time. */
module Store {
  import opened Basics
  import opened FileSystem
  import opened StoreSpec
  import opened PutSpec
  import opened Storage
  import opened Stream
  import opened Totals
  import opened Sorting
  import HttpPolicy
  import opened Text

  datatype LookupResult = Hit(entry: Entry, ino: nat) | Miss | Failed

  /** Reads of one lookup that fail for another reason than a missing file. */
  datatype ReadFaults = ReadFaults(meta: bool, stat: bool, open: bool)

  /** The answer of a lookup: an error where a file is there and cannot be read or does not fit. */
  function Answer(fs: FS, key: Key, ttl: int, now: int, io: ReadFaults): LookupResult {
    match At(fs, MetaFile(key))
    case None => Miss
    case Some(Bytes(_)) => Failed
    case Some(Json(m)) =>
      if io.meta then Failed
      else if now - m.storedAt >= ttl then Miss
      else match BodyPath(key, m)
        case None => Failed
        case Some(p) =>
          (match At(fs, p)
           case None => Miss
           case Some(Bytes(b)) =>
             if io.stat || |b| != m.contentBytes || io.open then Failed else Hit(Entry(m, b), fs.names[p])
           case Some(Json(_)) => Failed)
  }

  /** The metadata of a key, if its file decodes. */
  function MetadataOf(fs: FS, key: Key): Option<Metadata> {
    match At(fs, MetaFile(key)) case Some(Json(m)) => Some(m) case _ => None
  }

  /** Dating one inode dates the file of that name and changes nothing else. */
  lemma OnlyThatFileIsDated(fs: FS, p: Path, body: seq<Byte>, now: int)
    requires Wf(fs) && At(fs, p) == Some(Bytes(body))
    ensures var r := fs.(files := fs.files[fs.names[p] := File(Bytes(body), now)]);
            && r == Do(fs, Chtimes(p, now))
            && (forall q :: At(r, q) == At(fs, q))
            && (forall q :: MtimeAt(r, q) == if q == p then now else MtimeAt(fs, q))
  {
  }

  /** What a hit does to the directory: it dates the body it read. */
  lemma HitDates(before: FS, after: FS, key: Key, e: Entry, ino: nat, now: int)
    requires Wf(before) && Get(before, key) == Some(e) && BodyPath(key, e.meta).Some?
    requires BodyPath(key, e.meta).value in before.names && ino == before.names[BodyPath(key, e.meta).value]
    requires after == before.(files := before.files[ino := File(Bytes(e.body), now)])
    ensures BodyPath(key, e.meta).value.IsBody() && after == Do(before, Chtimes(BodyPath(key, e.meta).value, now))
  {
    OnlyThatFileIsDated(before, BodyPath(key, e.meta).value, e.body, now);
  }

  datatype GcResult = GcResult(objects: nat, bytes: nat, skipped: nat)

  datatype CleanupResult = CleanupResult(files: nat, bytes: nat)

  function MetaKeys(fs: FS): set<Key> { set p | p in fs.names && p.MetaFile? :: p.key }

  lemma ViewKeysAreMetaKeys(fs: FS)
    ensures View(fs).Keys <= MetaKeys(fs)
  {
  }

  function LastUsed(c: Candidate): int { c.lastUsed }
  function KeyOf(c: Candidate): Key { c.key }

  predicate LruSorted(cs: seq<Candidate>) { SortedBy(cs, LastUsed) }

  /** A listing names every complete entry once, with its size. */
  ghost predicate Lists(v: map<Key, Entry>, cs: seq<Candidate>) {
    && (forall i :: 0 <= i < |cs| ==> cs[i].key in v && cs[i].bytes == |v[cs[i].key].body|)
    && (forall i, j :: 0 <= i < j < |cs| ==> cs[i].key != cs[j].key)
    && (forall k :: k in v ==> exists i :: 0 <= i < |cs| && cs[i].key == k)
  }

  function CandidateBytes(cs: seq<Candidate>): nat {
    if cs == [] then 0 else cs[0].bytes + CandidateBytes(cs[1..])
  }

  /** Counter, scan and candidate list agree: the candidates sum to the bytes of the view. */
  lemma {:induction false} ListingSumsToView(v: map<Key, Entry>, cs: seq<Candidate>)
    requires Lists(v, cs)
    ensures CandidateBytes(cs) == ViewBytes(v)
    decreases |cs|
  {
    if cs == [] {
      assert v == map[] by { assert forall k :: k !in v; }
      assert Sizes(v) == map[];
    } else {
      var k := cs[0].key;
      ViewBytesDrop(v, k);
      ListingTail(v, cs);
      ListingSumsToView(v - {k}, cs[1..]);
    }
  }

  lemma ListingTail(v: map<Key, Entry>, cs: seq<Candidate>)
    requires Lists(v, cs) && cs != []
    ensures Lists(v - {cs[0].key}, cs[1..])
  {
    var w := v - {cs[0].key};
    forall k | k in w
      ensures exists i :: 0 <= i < |cs[1..]| && cs[1..][i].key == k
    {
      var i :| 0 <= i < |cs| && cs[i].key == k;
      assert cs[1..][i - 1].key == k;
    }
  }

  lemma SortedListing(v: map<Key, Entry>, cs: seq<Candidate>)
    requires Lists(v, cs)
    ensures Lists(v, SortBy(cs, LastUsed)) && LruSorted(SortBy(cs, LastUsed))
  {
    var r := SortBy(cs, LastUsed);
    SortSorts(cs, LastUsed);
    EqualElements(cs, r);
    assert DistinctBy(cs, KeyOf);
    DistinctPermute(cs, r, KeyOf);
    forall i, j | 0 <= i < j < |r|
      ensures r[i].key != r[j].key
    {
      assert KeyOf(r[i]) != KeyOf(r[j]);
    }
    forall i | 0 <= i < |r|
      ensures r[i].key in v && r[i].bytes == |v[r[i].key].body|
    {
      assert r[i] in cs;
    }
    forall k | k in v
      ensures exists i :: 0 <= i < |r| && r[i].key == k
    {
      var i :| 0 <= i < |cs| && cs[i].key == k;
      assert cs[i] in r;
    }
  }

  /** One more scanned key adds its entry, if it has one, to the running totals. */
  lemma ScanStep(v: map<Key, Entry>, todo: set<Key>, k: Key)
    requires k in todo
    ensures ViewBytes(v - (todo - {k})) == ViewBytes(v - todo) + SizeIn(v, k)
    ensures |v - (todo - {k})| == |v - todo| + (if k in v then 1 else 0)
  {
    var w := v - (todo - {k});
    assert w - {k} == v - todo;
    ViewBytesDrop(w, k);
  }

  /** The running totals of a scan that has still to visit todo. */
  ghost predicate Scanned(fs: FS, todo: set<Key>, b: int, o: int) {
    b == ViewBytes(View(fs) - todo) && o == |View(fs) - todo|
  }

  lemma ScanOne(fs: FS, todo: set<Key>, k: Key, b: int, o: int)
    requires k in todo && Scanned(fs, todo, b, o)
    ensures match Get(fs, k)
            case Some(e) => Scanned(fs, todo - {k}, b + |e.body|, o + 1)
            case None => Scanned(fs, todo - {k}, b, o)
  {
    EntryIn(fs, View(fs), k);
    ScanStep(View(fs), todo, k);
  }

  lemma ScanStart(fs: FS)
    ensures Scanned(fs, MetaKeys(fs), 0, 0)
  {
    var v := View(fs);
    ViewKeysAreMetaKeys(fs);
    assert v - MetaKeys(fs) == map[];
    assert Sizes(v - MetaKeys(fs)) == map[];
  }

  lemma ScanDone(fs: FS, todo: set<Key>, b: int, o: int)
    requires todo == {} && Scanned(fs, todo, b, o)
    ensures b == ViewBytes(View(fs)) && o == |View(fs)|
  {
    assert View(fs) - {} == View(fs);
  }

  lemma EntryIn(fs: FS, v: map<Key, Entry>, k: Key)
    requires v == View(fs)
    ensures Get(fs, k) == (if k in v then Some(v[k]) else None)
    ensures Get(fs, k).Some? ==> SizeIn(v, k) == |Get(fs, k).value.body|
  {
    ViewIsGet(fs, k);
  }

  /** The directory walk behind Reconcile: metadata files in any order, complete entries counted;
      a file the walk fails on ends it. */
  method Scan(disk: FS, walkFails: set<Key>) returns (b: int, o: int, failed: bool)
    ensures !failed ==> b == ViewBytes(View(disk)) && o == |View(disk)|
    ensures failed <==> walkFails * MetaKeys(disk) != {}
  {
    b, o := 0, 0;
    var todo := MetaKeys(disk);
    ScanStart(disk);
    while todo != {}
      invariant Scanned(disk, todo, b, o) && todo <= MetaKeys(disk)
      invariant forall k :: k in MetaKeys(disk) && k !in todo ==> k !in walkFails
    {
      var key :| key in todo;
      if key in walkFails {
        assert key in walkFails * MetaKeys(disk);
        return b, o, true;
      }
      ScanOne(disk, todo, key, b, o);
      var entry := Get(disk, key);
      if entry.Some? {
        b, o := b + |entry.value.body|, o + 1;
      }
      todo := todo - {key};
    }
    ScanDone(disk, todo, b, o);
    failed := false;
  }

  ghost predicate FoundSoFar(fs: FS, v: map<Key, Entry>, todo: set<Key>, found: seq<Candidate>) {
    && (forall i :: 0 <= i < |found| ==>
          found[i].key in v && found[i].key !in todo && found[i] == CandidateOf(fs, found[i].key, v[found[i].key]))
    && (forall i, j :: 0 <= i < j < |found| ==> found[i].key != found[j].key)
    && (forall k :: k in v && k !in todo ==> exists i :: 0 <= i < |found| && found[i].key == k)
  }

  lemma FindOne(fs: FS, v: map<Key, Entry>, todo: set<Key>, found: seq<Candidate>, k: Key)
    requires FoundSoFar(fs, v, todo, found) && k in todo
    ensures k in v ==> FoundSoFar(fs, v, todo - {k}, found + [CandidateOf(fs, k, v[k])])
    ensures k !in v ==> FoundSoFar(fs, v, todo - {k}, found)
  {
    if k in v {
      var more := found + [CandidateOf(fs, k, v[k])];
      forall j | j in v && j !in todo - {k}
        ensures exists i :: 0 <= i < |more| && more[i].key == j
      {
        if j == k {
          assert more[|found|].key == j;
        } else {
          var i :| 0 <= i < |found| && found[i].key == j;
          assert more[i].key == j;
        }
      }
    }
  }

  lemma CandidateIsCurrent(fs: FS, k: Key, e: Entry)
    requires Get(fs, k) == Some(e)
    ensures var c := CandidateOf(fs, k, e);
            c.key == k && c.bytes == |e.body| && CurrentBody(fs, k) == Some(c.bodyPath) && Truthful(fs, c)
  {
  }

  lemma FinishListing(fs: FS, v: map<Key, Entry>, found: seq<Candidate>)
    requires v == View(fs) && FoundSoFar(fs, v, {}, found)
    ensures var cs := SortBy(found, LastUsed);
            && Lists(v, cs) && LruSorted(cs) && CandidateBytes(cs) == ViewBytes(v)
            && (forall c :: c in cs ==> c == CandidateOf(fs, c.key, v[c.key]))
            && (forall c :: c in cs ==> CurrentBody(fs, c.key) == Some(c.bodyPath) && Truthful(fs, c))
  {
    var cs := SortBy(found, LastUsed);
    SortedListing(v, found);
    SortSorts(found, LastUsed);
    EqualElements(found, cs);
    ListingSumsToView(v, cs);
    forall c | c in cs
      ensures c == CandidateOf(fs, c.key, v[c.key])
      ensures CurrentBody(fs, c.key) == Some(c.bodyPath) && Truthful(fs, c)
    {
      assert c in found;
      EntryIn(fs, v, c.key);
      CandidateIsCurrent(fs, c.key, v[c.key]);
    }
  }

  /** Candidates that describe complete entries as they are, each key once. */
  ghost predicate Observed(disk: FS, cs: seq<Candidate>) {
    && (forall c :: c in cs ==> c.key in View(disk) && c == CandidateOf(disk, c.key, View(disk)[c.key]))
    && DistinctBy(cs, KeyOf)
  }

  lemma FoundIsObserved(disk: FS, todo: set<Key>, found: seq<Candidate>)
    requires FoundSoFar(disk, View(disk), todo, found)
    ensures Observed(disk, SortBy(found, LastUsed)) && LruSorted(SortBy(found, LastUsed))
  {
    var r := SortBy(found, LastUsed);
    SortSorts(found, LastUsed);
    EqualElements(found, r);
    DistinctPermute(found, r, KeyOf);
  }

  /** The directory walk behind Candidates, and the sort that ends it; a walk that fails leaves a
      shorter list of candidates that are all true. */
  method ListCandidates(disk: FS, walkFails: set<Key>) returns (candidates: seq<Candidate>, failed: bool)
    ensures Observed(disk, candidates) && LruSorted(candidates)
    ensures forall c :: c in candidates ==> CurrentBody(disk, c.key) == Some(c.bodyPath) && Truthful(disk, c)
    ensures forall c :: c in candidates ==>
              && c.key in View(disk) && c.bytes == |View(disk)[c.key].body|
              && c.bodyPath in disk.names && disk.names[c.bodyPath] in disk.files
              && c.lastUsed == if disk.files[disk.names[c.bodyPath]].mtime == 0 then View(disk)[c.key].meta.storedAt
                               else disk.files[disk.names[c.bodyPath]].mtime
    ensures forall i, j :: 0 <= i < j < |candidates| ==> candidates[i].lastUsed <= candidates[j].lastUsed
    ensures failed <==> walkFails * MetaKeys(disk) != {}
    ensures !failed ==> Lists(View(disk), candidates) && CandidateBytes(candidates) == ViewBytes(View(disk))
  {
    var found: seq<Candidate> := [];
    ghost var v := View(disk);
    var todo := MetaKeys(disk);
    failed := false;
    ViewKeysAreMetaKeys(disk);
    while todo != {} && !failed
      invariant FoundSoFar(disk, v, todo, found) && todo <= MetaKeys(disk)
      invariant forall k :: k in MetaKeys(disk) && k !in todo ==> k !in walkFails
      invariant failed ==> walkFails * MetaKeys(disk) != {}
      decreases |todo|, !failed
    {
      var key :| key in todo;
      if key in walkFails {
        assert key in walkFails * MetaKeys(disk);
        failed := true;
      } else {
        EntryIn(disk, v, key);
        var entry := Get(disk, key);
        FindOne(disk, v, todo, found, key);
        if entry.Some? {
          found := found + [CandidateOf(disk, key, entry.value)];
        }
        todo := todo - {key};
      }
    }
    candidates := SortBy(found, LastUsed);
    FoundIsObserved(disk, todo, found);
    ObservedAreCurrent(disk, candidates);
    ObservedDescribes(disk, candidates);
    if !failed { FinishListing(disk, v, found); }
  }

  /** What a candidate says of its entry: the generation its metadata names, its size, and the time
      of that file - or the stored time, for a file that has none. */
  ghost predicate Describes(fs: FS, c: Candidate) {
    && c.key in View(fs) && c.bytes == |View(fs)[c.key].body|
    && BodyPath(c.key, View(fs)[c.key].meta) == Some(c.bodyPath)
    && c.bodyPath in fs.names && fs.names[c.bodyPath] in fs.files
    && c.lastUsed == (var mtime := fs.files[fs.names[c.bodyPath]].mtime;
                      if mtime == 0 then View(fs)[c.key].meta.storedAt else mtime)
  }

  lemma ObservedDescribes(fs: FS, cs: seq<Candidate>)
    requires Observed(fs, cs)
    ensures forall c :: c in cs ==> Describes(fs, c)
  {
    forall c | c in cs
      ensures Describes(fs, c)
    {
      EntryIn(fs, View(fs), c.key);
    }
  }

  /** A read is a use: once a hit has dated its body, the next listing gives the key the time of the
      hit, after every entry last used before it; the other entries keep their last use. */
  lemma ReadIsListedLast(before: FS, after: FS, key: Key, body: Path, now: int, cs: seq<Candidate>)
    requires Wf(before) && now != 0 && key in View(before)
    requires BodyPath(key, View(before)[key].meta) == Some(body) && body in before.names
    requires after == before.(files := before.files[before.names[body] := File(Bytes(View(before)[key].body), now)])
    requires Observed(after, cs) && LruSorted(cs)
    ensures forall i :: 0 <= i < |cs| && cs[i].key == key ==> cs[i].lastUsed == now && cs[i].bodyPath == body
    ensures forall i, j :: 0 <= i < |cs| && 0 <= j < |cs| && cs[i].key == key && cs[j].lastUsed < now ==> j < i
    ensures forall c :: c in cs && c.key != key ==> Describes(before, c)
  {
    EntryIn(before, View(before), key);
    OnlyThatFileIsDated(before, body, View(before)[key].body, now);
    SameView(before, after);
    ObservedDescribes(after, cs);
    forall c | c in cs && c.key != key
      ensures Describes(before, c)
    {
      EntryIn(after, View(after), c.key);
      assert c.bodyPath != body;
    }
    forall i, j | 0 <= i < |cs| && 0 <= j < |cs| && cs[i].key == key && cs[j].lastUsed < now
      ensures j < i
    {
      assert cs[i] in cs;
      assert i < j ==> LastUsed(cs[i]) <= LastUsed(cs[j]);
    }
    forall i | 0 <= i < |cs| && cs[i].key == key
      ensures cs[i].lastUsed == now && cs[i].bodyPath == body
    {
      assert cs[i] in cs;
    }
  }

  lemma ObservedAreCurrent(disk: FS, cs: seq<Candidate>)
    requires Observed(disk, cs)
    ensures forall c :: c in cs ==> CurrentBody(disk, c.key) == Some(c.bodyPath) && Truthful(disk, c)
  {
    forall c | c in cs
      ensures CurrentBody(disk, c.key) == Some(c.bodyPath) && Truthful(disk, c)
    {
      EntryIn(disk, View(disk), c.key);
      CandidateIsCurrent(disk, c.key, View(disk)[c.key]);
    }
  }

  // ---------------------------------------------------------------- age collection

  /** What age collection leaves once all keys outside todo have been visited. */
  function Survivors(v: map<Key, Entry>, todo: set<Key>, cutoff: int, bodyFails: set<Key>): map<Key, Entry> {
    map k | k in v && (k in todo || !IsExpired(v[k], cutoff) || k in bodyFails) :: v[k]
  }

  predicate CountsAsSkipped(fs: FS, k: Key, cutoff: int, bodyFails: set<Key>, metaFails: set<Key>) {
    var verdict := Judge(fs, k, cutoff);
    verdict.Skip? || (verdict.Expired? && (k in bodyFails || k in metaFails))
  }

  function SkippedKeys(fs: FS, done: set<Key>, cutoff: int, bodyFails: set<Key>, metaFails: set<Key>): set<Key> {
    set k | k in done && CountsAsSkipped(fs, k, cutoff, bodyFails, metaFails)
  }

  ghost predicate GcProgress(before: StoreState, now: StoreState, todo: set<Key>, cutoff: int,
                             bodyFails: set<Key>, metaFails: set<Key>, result: GcResult) {
    && Wf(now.fs) && todo <= MetaKeys(before.fs)
    && now.active == before.active
    && View(now.fs) == Survivors(View(before.fs), todo, cutoff, bodyFails)
    && result.bytes == before.bytes - now.bytes && result.objects == before.objects - now.objects
    && ByteDrift(now) == ByteDrift(before) && ObjectDrift(now) == ObjectDrift(before)
    && (forall k :: k in todo ==> Judge(now.fs, k, cutoff) == Judge(before.fs, k, cutoff))
    && result.skipped == |SkippedKeys(before.fs, MetaKeys(before.fs) - todo, cutoff, bodyFails, metaFails)|
  }

  lemma SurvivorsStep(v: map<Key, Entry>, todo: set<Key>, k: Key, cutoff: int, bodyFails: set<Key>)
    requires k in todo
    ensures Survivors(v, todo - {k}, cutoff, bodyFails) ==
            if k in v && IsExpired(v[k], cutoff) && k !in bodyFails
            then Survivors(v, todo, cutoff, bodyFails) - {k} else Survivors(v, todo, cutoff, bodyFails)
    ensures k in Survivors(v, todo, cutoff, bodyFails) <==> k in v
    ensures k in v ==> Survivors(v, todo, cutoff, bodyFails)[k] == v[k]
  {
  }

  lemma SkippedStep(fs: FS, todo: set<Key>, k: Key, cutoff: int, bodyFails: set<Key>, metaFails: set<Key>)
    requires k in todo && todo <= MetaKeys(fs)
    ensures |SkippedKeys(fs, MetaKeys(fs) - (todo - {k}), cutoff, bodyFails, metaFails)|
         == |SkippedKeys(fs, MetaKeys(fs) - todo, cutoff, bodyFails, metaFails)|
          + (if CountsAsSkipped(fs, k, cutoff, bodyFails, metaFails) then 1 else 0)
  {
    var old_ := SkippedKeys(fs, MetaKeys(fs) - todo, cutoff, bodyFails, metaFails);
    var new_ := SkippedKeys(fs, MetaKeys(fs) - (todo - {k}), cutoff, bodyFails, metaFails);
    assert new_ == if CountsAsSkipped(fs, k, cutoff, bodyFails, metaFails) then old_ + {k} else old_;
  }

  /** What visiting one metadata file adds to the result. */
  function Tally(verdict: Verdict, bodyFails: bool, metaFails: bool): GcResult {
    match verdict
    case Keep => GcResult(0, 0, 0)
    case Skip => GcResult(0, 0, 1)
    case Expired(_, size) =>
      if bodyFails then GcResult(0, 0, 1) else GcResult(1, size, if metaFails then 1 else 0)
  }

  function Plus(a: GcResult, b: GcResult): GcResult {
    GcResult(a.objects + b.objects, a.bytes + b.bytes, a.skipped + b.skipped)
  }

  lemma GcStepView(before: StoreState, now: StoreState, todo: set<Key>, k: Key, cutoff: int,
                   bodyFails: set<Key>, metaFails: bool)
    requires Wf(now.fs) && k in todo
    requires View(now.fs) == Survivors(View(before.fs), todo, cutoff, bodyFails)
    ensures View(AfterCollection(now, k, cutoff, k in bodyFails, metaFails).fs)
         == Survivors(View(before.fs), todo - {k}, cutoff, bodyFails)
  {
    CollectIsAtomic(now.fs, k, cutoff, k in bodyFails, metaFails);
    SurvivorsStep(View(before.fs), todo, k, cutoff, bodyFails);
  }

  lemma JudgeElsewhere(now: StoreState, k: Key, cutoff: int, bodyFails: bool, metaFails: bool, j: Key)
    requires Wf(now.fs) && j != k
    ensures Judge(AfterCollection(now, k, cutoff, bodyFails, metaFails).fs, j, cutoff) == Judge(now.fs, j, cutoff)
  {
    CollectTouchesOneKey(now.fs, k, cutoff, bodyFails, metaFails, j);
  }

  lemma GcStepJudge(before: StoreState, now: StoreState, todo: set<Key>, k: Key, cutoff: int,
                    bodyFails: bool, metaFails: bool)
    requires Wf(now.fs) && forall j :: j in todo ==> Judge(now.fs, j, cutoff) == Judge(before.fs, j, cutoff)
    ensures forall j :: j in todo - {k} ==>
              Judge(AfterCollection(now, k, cutoff, bodyFails, metaFails).fs, j, cutoff) == Judge(before.fs, j, cutoff)
  {
    forall j | j in todo - {k}
      ensures Judge(AfterCollection(now, k, cutoff, bodyFails, metaFails).fs, j, cutoff) == Judge(before.fs, j, cutoff)
    {
      JudgeElsewhere(now, k, cutoff, bodyFails, metaFails, j);
    }
  }

  lemma GcStep(before: StoreState, now: StoreState, todo: set<Key>, k: Key, cutoff: int,
               bodyFails: set<Key>, metaFails: set<Key>, result: GcResult)
    requires GcProgress(before, now, todo, cutoff, bodyFails, metaFails, result)
    requires k in todo
    ensures GcProgress(before, AfterCollection(now, k, cutoff, k in bodyFails, k in metaFails), todo - {k},
                       cutoff, bodyFails, metaFails,
                       Plus(result, Tally(Judge(now.fs, k, cutoff), k in bodyFails, k in metaFails)))
  {
    GcStepView(before, now, todo, k, cutoff, bodyFails, k in metaFails);
    GcStepJudge(before, now, todo, k, cutoff, k in bodyFails, k in metaFails);
    CollectKeepsCounters(now, k, cutoff, k in bodyFails, k in metaFails);
    SkippedStep(before.fs, todo, k, cutoff, bodyFails, metaFails);
    CollectWf(now.fs, k, cutoff, k in bodyFails, k in metaFails);
  }

  lemma CollectWf(fs: FS, k: Key, cutoff: int, bodyFails: bool, metaFails: bool)
    requires Wf(fs)
    ensures Wf(Run(fs, CollectActs(fs, k, cutoff, bodyFails, metaFails)))
  {
    RunWf(fs, CollectActs(fs, k, cutoff, bodyFails, metaFails));
  }

  /** A state of age collection together with the result counted so far. */
  datatype GcRun = GcRun(st: StoreState, result: GcResult)

  function GcFold(st: StoreState, order: seq<Key>, cutoff: int, bodyFails: set<Key>, metaFails: set<Key>): GcRun {
    if order == [] then GcRun(st, GcResult(0, 0, 0))
    else
      var k := order[|order| - 1];
      GcNext(GcFold(st, order[..|order| - 1], cutoff, bodyFails, metaFails), k, cutoff, k in bodyFails, k in metaFails)
  }

  /** One more visit. */
  function GcNext(r: GcRun, k: Key, cutoff: int, bodyFails: bool, metaFails: bool): GcRun {
    GcRun(AfterCollection(r.st, k, cutoff, bodyFails, metaFails),
          Plus(r.result, Tally(Judge(r.st.fs, k, cutoff), bodyFails, metaFails)))
  }

  lemma GcFoldStep(st: StoreState, order: seq<Key>, k: Key, cutoff: int, bodyFails: set<Key>, metaFails: set<Key>)
    ensures GcFold(st, order + [k], cutoff, bodyFails, metaFails)
         == GcNext(GcFold(st, order, cutoff, bodyFails, metaFails), k, cutoff, k in bodyFails, k in metaFails)
  {
    assert (order + [k])[..|order|] == order;
  }

  function Visited(order: seq<Key>): set<Key> { set k | k in order }

  /** A walk visits metadata files of the directory, none twice. */
  predicate WalkOf(fs: FS, order: seq<Key>) {
    && (forall k :: k in order ==> k in MetaKeys(fs))
    && (forall i, j :: 0 <= i < j < |order| ==> order[i] != order[j])
  }

  /** A walk that has todo still ahead of it. */
  ghost predicate Walked(fs: FS, order: seq<Key>, todo: set<Key>) {
    WalkOf(fs, order) && todo <= MetaKeys(fs) && Visited(order) == MetaKeys(fs) - todo
  }

  lemma WalkStep(fs: FS, order: seq<Key>, todo: set<Key>, k: Key)
    requires Walked(fs, order, todo) && k in todo
    ensures Walked(fs, order + [k], todo - {k})
  {
    assert Visited(order + [k]) == Visited(order) + {k};
    assert k in order <==> k in Visited(order);
  }

  lemma GcFoldProgress(st: StoreState, front: seq<Key>, k: Key, todo: set<Key>, cutoff: int,
                       bodyFails: set<Key>, metaFails: set<Key>)
    requires k in todo
    requires var r := GcFold(st, front, cutoff, bodyFails, metaFails);
             GcProgress(st, r.st, todo, cutoff, bodyFails, metaFails, r.result)
    ensures var r := GcFold(st, front + [k], cutoff, bodyFails, metaFails);
            GcProgress(st, r.st, todo - {k}, cutoff, bodyFails, metaFails, r.result)
  {
    var r := GcFold(st, front, cutoff, bodyFails, metaFails);
    GcFoldStep(st, front, k, cutoff, bodyFails, metaFails);
    GcStep(st, r.st, todo, k, cutoff, bodyFails, metaFails, r.result);
  }

  /** Age collection is exact, whatever fails and wherever the walk stops: of the visited keys
      those with an expired entry and a removable body are gone, every other entry is served as
      before, and the result's counts are what left the view and what left the counters. */
  lemma {:induction false} AgeCollectionIsExact(st: StoreState, order: seq<Key>, cutoff: int,
                                                bodyFails: set<Key>, metaFails: set<Key>)
    requires Wf(st.fs) && WalkOf(st.fs, order)
    ensures var r := GcFold(st, order, cutoff, bodyFails, metaFails);
            GcProgress(st, r.st, MetaKeys(st.fs) - Visited(order), cutoff, bodyFails, metaFails, r.result)
    decreases |order|
  {
    if order == [] {
      GcStart(st, cutoff, bodyFails, metaFails);
      assert MetaKeys(st.fs) - Visited(order) == MetaKeys(st.fs);
    } else {
      var n := |order| - 1;
      var k, front := order[n], order[..n];
      assert order == front + [k];
      AgeCollectionIsExact(st, front, cutoff, bodyFails, metaFails);
      var todo := MetaKeys(st.fs) - Visited(front);
      assert k !in front && k in order;
      assert MetaKeys(st.fs) - Visited(order) == todo - {k};
      GcFoldProgress(st, front, k, todo, cutoff, bodyFails, metaFails);
    }
  }

  lemma GcStart(st: StoreState, cutoff: int, bodyFails: set<Key>, metaFails: set<Key>)
    requires Wf(st.fs)
    ensures GcProgress(st, st, MetaKeys(st.fs), cutoff, bodyFails, metaFails, GcResult(0, 0, 0))
  {
    ViewKeysAreMetaKeys(st.fs);
    assert Survivors(View(st.fs), MetaKeys(st.fs), cutoff, bodyFails) == View(st.fs);
    assert SkippedKeys(st.fs, MetaKeys(st.fs) - MetaKeys(st.fs), cutoff, bodyFails, metaFails) == {};
  }

  // ---------------------------------------------------------------- puts

  /** The surroundings of one put: clock, random suffixes, and which operations fail. */
  datatype PutEnv = PutEnv(
    now: int, bodySuffix: string, metaSuffix: string, freeBytes: Option<int64>,
    mkdirFails: bool, createBodyFails: bool, cacheFaultAt: Option<nat>, syncFails: bool,
    createMetaFails: bool, writeMetaFails: bool, commit: CommitFaults,
    metaUnlinkFails: bool, bodyUnlinkFails: bool)

  /** committing: the error comes from the commit region. */
  datatype PutResult = Stored | Bypassed | Rejected(committing: bool)

  /** The put's commit lost the entry it was to replace. */
  predicate Lost(r: PutResult, env: PutEnv) { r == Rejected(true) && FallbackLoses(env.commit) }

  /** How streaming ended, and the bytes a verifier's tee reader saw. */
  datatype SpoolResult = SpoolResult(copied: bool, overflow: bool, hashed: seq<Byte>)

  /** contentLength: the declared size, if the header gives a positive one that fits int64. */
  function ContentLength(h: Header): Option<int64> {
    var values := HttpPolicy.Values(h, "Content-Length");
    if values == [] then None
    else match ParseDecimal(values[0])
      case Some(n) => if 0 < n <= MAX_INT64 as int then Some(n as int64) else None
      case None => None
  }

  /** A declared length counts if it is positive and fits an int64. */
  lemma DeclaredLength(h: Header, n: nat)
    requires HttpPolicy.Values(h, "Content-Length") != []
    ensures HttpPolicy.Values(h, "Content-Length")[0] == Decimal(n) ==>
              ContentLength(h) == if 0 < n <= MAX_INT64 as int then Some(n as int64) else None
    ensures HttpPolicy.Values(h, "Content-Length")[0] == "-" + Decimal(n) ==> ContentLength(h) == None
  {
    ParseOfDecimal(n);
    ParseOfSigned(n);
  }

  /** The metadata a put records: the caller's, filtered and bound to the body it committed. */
  function StoredMetadata(m: Metadata, key: Key, env: PutEnv, length: nat): Metadata {
    m.(header := HttpPolicy.CacheMetadataHeaders(m.header), storedAt := env.now, contentBytes := length,
       bodyFile := GenerationName(key, env.bodySuffix))
  }

  function StoredEntry(m: Metadata, key: Key, env: PutEnv, body: seq<Byte>): Entry {
    Entry(StoredMetadata(m, key, env, |body|), body)
  }

  /** A reservation after a commit attempt: settled with exact amounts, or still open. */
  ghost predicate SettledBy(r: Reservation, ok: bool, ledger: Ledger, open: map<Reservation, nat>, cap: int,
                            actual: nat, replaced: nat)
    reads r, r.controller, r.controller.open.Keys
  {
    && r.controller.Valid() && r.controller.cap == cap
    && (ok ==> r.settled && r.controller.open == open - {r}
               && r.controller.State() == CommittedLedger(ledger, r.bytes, Wrap(actual), Wrap(replaced)))
    && (!ok ==> !r.settled && r.controller.open == open && r.controller.State() == ledger)
  }

  /** An unsettled reservation large enough for the body. */
  ghost predicate Covers(r: Reservation, size: nat)
    reads r, r.controller, r.controller.open.Keys
  {
    r.controller.Valid() && r in r.controller.open && size <= r.bytes as int
  }

  /** The reservation will not commit these amounts. */
  predicate Refuses(r: Reservation?, actual: nat, replaced: nat)
    reads r, if r == null then {} else {r.controller}
  {
    r != null && !(0 <= Wrap(actual) <= r.bytes && 0 <= Wrap(replaced) <= r.controller.committed)
  }

  /** The budget covers the entry that would be replaced. */
  predicate Affords(r: Reservation, replaced: nat)
    reads r.controller
  {
    replaced <= r.controller.committed as int
  }

  /** The store's counter covers its entries, and the shared budget covers the counter. */
  ghost predicate Accounted(st: StoreState, c: Controller)
    reads c
  {
    ByteDrift(st) >= 0 && st.bytes <= c.committed as int
  }

  /** The budget moved with the store's counter, stopped only at the largest int64. */
  predicate Charged(committedBefore: int64, committedAfter: int64, bytesBefore: int, bytesAfter: int) {
    var exact := committedBefore as int + bytesAfter - bytesBefore;
    committedAfter as int == if exact <= MAX_INT64 as int then exact else MAX_INT64 as int
  }

  function JobFor(m: Metadata, key: Key, env: PutEnv, body: seq<Byte>): PutJob {
    PutJob(key, env.bodySuffix, env.metaSuffix, StoredMetadata(m, key, env, |body|))
  }

  /** Unreadable metadata and failing unlinks are reported; a changed or vanished entry is not. */
  predicate RemovalFails(fs: FS, c: Candidate, bodyFails: bool, metaFails: bool) {
    match At(fs, MetaFile(c.key))
    case None => false
    case Some(Bytes(_)) => true
    case Some(Json(_)) => StillNames(fs, c) && c.bodyPath in fs.names && (bodyFails || metaFails)
  }

  /** The verifier, if there is one, accepts. */
  predicate Accepts(verify: Option<seq<Byte> -> bool>, content: seq<Byte>) {
    verify.Some? ==> verify.value(content)
  }

  /** The metadata is written and every rename of the commit works out; present: the key had
      metadata before. */
  predicate Publishes(present: bool, env: PutEnv) {
    && !env.createMetaFails && !env.writeMetaFails && !env.commit.renameBody && !env.commit.setTime
    && ReplaceOk(present, env.commit)
  }

  /** From a created temporary file on, a stream goes right all the way and fits its limit. */
  predicate Stores(source: Source, fault: Option<Fault>, first: nat, limit: int, accepted: bool, env: PutEnv,
                   present: bool) {
    && Arrives(source, fault, first, env.cacheFaultAt, limit) && !(limit >= 0 && |source.Content()| > limit)
    && !env.syncFails && accepted && Publishes(present, env)
  }

  /** It goes right but does not fit. */
  predicate PassesOver(source: Source, fault: Option<Fault>, first: nat, limit: int, accepted: bool, env: PutEnv) {
    && Arrives(source, fault, first, env.cacheFaultAt, limit) && limit >= 0 && |source.Content()| > limit
    && !env.syncFails && accepted
  }

  /** How a put leaves the store: entries and counters as its outcome says, no temporary name in
      use, and - with working unlinks - no temporary file. */
  ghost predicate PutEnds(before: StoreState, after: StoreState, key: Key, entry: Entry, env: PutEnv, r: PutResult) {
    && PutOutcome(before, after, key, entry, Lost(r, env), r.Stored?)
    && after.active == before.active
    && (!env.metaUnlinkFails && !env.bodyUnlinkFails ==> TempNames(after.fs) == TempNames(before.fs))
    && after.bytes == before.bytes + (if r.Stored? then |entry.body| - PreviousOf(before.fs, key).bytes else 0)
    && (r.Stored? ==> DatedAt(after.fs, Generation(key, env.bodySuffix), env.now))
  }

  /** A file that is there and was last used at that time. */
  predicate DatedAt(fs: FS, p: Path, time: int) { p in fs.names && MtimeAt(fs, p) == time }

  // ---------------------------------------------------------------- stale temporary files

  /** Temporary files no put is using that were last written at or before the cutoff. */
  function StaleTemps(st: StoreState, cutoff: int): set<Path> {
    set p | p in st.fs.names && p.IsTemp() && p !in st.active && MtimeAt(st.fs, p) <= cutoff
  }

  /** Which files those are: the two kinds of temporary file, by the time of the inode behind the name. */
  lemma StaleIff(st: StoreState, cutoff: int, p: Path)
    requires Wf(st.fs)
    ensures p in StaleTemps(st, cutoff) <==>
              && p in st.fs.names && (p.BodyTemp? || p.MetaTemp?) && p !in st.active
              && st.fs.files[st.fs.names[p]].mtime <= cutoff
  {
  }

  function Without(fs: FS, gone: set<Path>): FS { fs.(names := fs.names - gone) }

  /** A file's length; the encoded length of metadata is a parameter. */
  function SizeAt(fs: FS, p: Path, encoded: Metadata -> nat): nat {
    match At(fs, p)
    case Some(Bytes(b)) => |b|
    case Some(Json(m)) => encoded(m)
    case None => 0
  }

  ghost function SizesOf(fs: FS, ps: set<Path>, encoded: Metadata -> nat): map<Path, nat> {
    map p | p in ps :: SizeAt(fs, p, encoded)
  }

  lemma CleanupIsInvisible(fs: FS, gone: set<Path>)
    requires Wf(fs) && forall p :: p in gone ==> p.IsTemp()
    ensures Wf(Without(fs, gone)) && View(Without(fs, gone)) == View(fs)
  {
    SameView(fs, Without(fs, gone));
  }

  lemma CleanupStep(fs: FS, gone: set<Path>, p: Path, encoded: Metadata -> nat)
    requires p in fs.names && p !in gone
    ensures Do(Without(fs, gone), Unlink(p)) == Without(fs, gone + {p})
    ensures MtimeAt(Without(fs, gone), p) == MtimeAt(fs, p)
    ensures SizeAt(Without(fs, gone), p, encoded) == SizeAt(fs, p, encoded)
    ensures Total(SizesOf(fs, gone + {p}, encoded)) == Total(SizesOf(fs, gone, encoded)) + SizeAt(fs, p, encoded)
    ensures |gone + {p}| == |gone| + 1
  {
    var m := SizesOf(fs, gone, encoded);
    assert SizesOf(fs, gone + {p}, encoded) == m[p := SizeAt(fs, p, encoded)];
    assert m - {p} == m;
    TotalUpdate(m, p, SizeAt(fs, p, encoded));
    assert fs.names - gone - {p} == fs.names - (gone + {p});
  }

  class Store {
    var fs: FS
    var bytes: int
    var objects: int
    var activeTemps: set<Path>
    const controller: Controller?

    ghost function State(): StoreState
      reads this
    {
      StoreState(fs, bytes, objects, activeTemps)
    }

    /** The shared budget's ledger, if the store has one. */
    ghost function Budget(): Option<Ledger>
      reads controller
    {
      if controller == null then None else Some(controller.State())
    }

    ghost predicate Valid()
      reads this
    {
      Wf(fs)
    }

    /** A store over a directory, before its first scan. */
    constructor (fs: FS, controller: Controller?)
      requires Wf(fs)
      ensures Valid() && this.fs == fs && activeTemps == {} && this.controller == controller
      ensures bytes == 0 && objects == 0
    {
      this.fs := fs;
      this.bytes, this.objects, this.activeTemps, this.controller := 0, 0, {}, controller;
    }

    /** New: the directory is made, and the counters come from a scan; null is an error. */
    static method Open(fs: FS, mkdirFails: bool, walkFails: set<Key>, controller: Controller?) returns (store: Store?)
      requires Wf(fs)
      ensures store == null <==> mkdirFails || walkFails * MetaKeys(fs) != {}
      ensures store != null ==> fresh(store) && store.Valid() && store.fs == fs && store.activeTemps == {}
      ensures store != null ==> store.controller == controller
      ensures store != null ==> store.bytes == ViewBytes(View(fs)) && store.objects == |View(fs)|
    {
      store := null;
      if !mkdirFails {
        var s := new Store(fs, controller);
        var b, o, failed := s.Reconcile(walkFails);
        if !failed {
          store := s;
        }
      }
    }

    /** Rebuilds the counters from the complete entries on disk; a failed walk leaves them alone. */
    method Reconcile(walkFails: set<Key>) returns (b: int, o: int, failed: bool)
      requires Valid()
      modifies this`bytes, this`objects
      ensures failed <==> walkFails * MetaKeys(fs) != {}
      ensures failed ==> bytes == old(bytes) && objects == old(objects)
      ensures !failed ==> b == bytes == ViewBytes(View(fs)) && o == objects == |View(fs)|
    {
      b, o, failed := Scan(fs, walkFails);
      if !failed {
        bytes, objects := b, o;
      }
    }

    /** A hit is exactly an unexpired complete entry that could be read; the returned inode already
        holds its body, and its file, no other, is dated now, unless that fails. A miss is exactly a
        key with no metadata, with metadata that has expired, or whose body is gone. */
    method Lookup(key: Key, ttl: int, now: int, io: ReadFaults, touchFails: bool) returns (r: LookupResult)
      requires Valid()
      modifies this`fs
      ensures Valid() && View(fs) == old(View(fs))
      ensures r == Answer(old(fs), key, ttl, now, io)
      ensures r.Hit? <==> Served(old(fs), key, ttl, now).Some? && !io.meta && !io.stat && !io.open
      ensures r.Hit? ==> key in old(View(fs)) && r.entry == old(View(fs))[key] && now - r.entry.meta.storedAt < ttl
      ensures r.Hit? ==> Sealed(fs, r.ino) && fs.files[r.ino].content == Bytes(r.entry.body)
      ensures r.Hit? ==>
                && BodyPath(key, r.entry.meta).Some? && BodyPath(key, r.entry.meta).value in old(fs).names
                && r.ino == old(fs).names[BodyPath(key, r.entry.meta).value]
      ensures r.Failed? ==> MetaFile(key) in old(fs).names && (key !in old(View(fs)) || io.meta || io.stat || io.open)
      ensures r.Miss? <==>
                || MetaFile(key) !in old(fs).names
                || (MetadataOf(old(fs), key).Some? && !io.meta
                    && (|| now - MetadataOf(old(fs), key).value.storedAt >= ttl
                        || (BodyPath(key, MetadataOf(old(fs), key).value).Some?
                            && BodyPath(key, MetadataOf(old(fs), key).value).value !in old(fs).names)))
      ensures !r.Hit? || touchFails ==> fs == old(fs)
      ensures r.Hit? && !touchFails ==>
                fs == old(fs).(files := old(fs).files[r.ino := File(Bytes(r.entry.body), now)])
    {
      ViewIsGet(fs, key);
      match At(fs, MetaFile(key)) {
        case None => return Miss;
        case Some(Bytes(_)) => return Failed;
        case Some(Json(metadata)) =>
          if io.meta {
            return Failed;
          }
          if now - metadata.storedAt >= ttl {
            return Miss;
          }
          var resolved := BodyPath(key, metadata);
          if resolved.None? {
            return Failed;
          }
          var bodyPath := resolved.value;
          match At(fs, bodyPath) {
            case None => return Miss;
            case Some(Json(_)) => return Failed;
            case Some(Bytes(body)) =>
              if io.stat || |body| != metadata.contentBytes || io.open {
                return Failed;
              }
              var ino := fs.names[bodyPath];
              if !touchFails {
                DoEffect(fs, Chtimes(bodyPath, now));
                SameView(fs, Do(fs, Chtimes(bodyPath, now)));
                fs := Do(fs, Chtimes(bodyPath, now));
              }
              return Hit(Entry(metadata, body), ino);
          }
      }
    }

    /** Complete entries from least to most recently used, each once; all of them unless the walk fails. */
    method Candidates(walkFails: set<Key>) returns (candidates: seq<Candidate>, failed: bool)
      requires Valid()
      ensures Observed(fs, candidates) && LruSorted(candidates)
      ensures forall c :: c in candidates ==> CurrentBody(fs, c.key) == Some(c.bodyPath) && Truthful(fs, c)
      ensures forall c :: c in candidates ==>
                && c.key in View(fs) && c.bytes == |View(fs)[c.key].body|
                && c.bodyPath in fs.names && fs.names[c.bodyPath] in fs.files
                && c.lastUsed == if fs.files[fs.names[c.bodyPath]].mtime == 0 then View(fs)[c.key].meta.storedAt
                                 else fs.files[fs.names[c.bodyPath]].mtime
      ensures forall i, j :: 0 <= i < j < |candidates| ==> candidates[i].lastUsed <= candidates[j].lastUsed
      ensures failed <==> walkFails * MetaKeys(fs) != {}
      ensures !failed ==> Lists(View(fs), candidates) && CandidateBytes(candidates) == ViewBytes(View(fs))
    {
      candidates, failed := ListCandidates(fs, walkFails);
    }

    /** Removes the exact generation the candidate saw, or nothing. */
    method RemoveCandidate(candidate: Candidate, bodyFails: bool, metaFails: bool) returns (removed: bool, failed: bool)
      requires Valid()
      modifies this
      ensures Valid() && State() == AfterRemoval(old(State()), candidate, bodyFails, metaFails)
      ensures removed <==> WillRemove(old(fs), candidate, bodyFails)
      ensures failed == RemovalFails(old(fs), candidate, bodyFails, metaFails)
      ensures removed || failed ==> MetaFile(candidate.key) in old(fs).names
      ensures removed <==>
                && MetadataOf(old(fs), candidate.key).Some? && !bodyFails
                && BodyPath(candidate.key, MetadataOf(old(fs), candidate.key).value) == Some(candidate.bodyPath)
                && MetadataOf(old(fs), candidate.key).value.contentBytes == candidate.bytes
                && candidate.bodyPath in old(fs).names
      ensures failed && MetadataOf(old(fs), candidate.key).Some? ==>
                && BodyPath(candidate.key, MetadataOf(old(fs), candidate.key).value) == Some(candidate.bodyPath)
                && MetadataOf(old(fs), candidate.key).value.contentBytes == candidate.bytes
                && candidate.bodyPath in old(fs).names && (bodyFails || metaFails)
      ensures removed && metaFails ==> failed
      ensures MetaFile(candidate.key) in old(fs).names && MetadataOf(old(fs), candidate.key).None? ==> failed
    {
      RunWf(fs, RemoveActs(fs, candidate, bodyFails, metaFails));
      var metaPath := MetaFile(candidate.key);
      match At(fs, metaPath) {
        case None => return false, false;
        case Some(Bytes(_)) => return false, true;
        case Some(Json(metadata)) =>
          if BodyPath(candidate.key, metadata) != Some(candidate.bodyPath) || metadata.contentBytes != candidate.bytes {
            return false, false;
          }
          if candidate.bodyPath !in fs.names {
            return false, false;
          }
          if bodyFails {
            return false, true;
          }
          Step1(fs, Unlink(candidate.bodyPath), {});
          Step2(fs, Unlink(candidate.bodyPath), Unlink(metaPath), {});
          fs := Do(fs, Unlink(candidate.bodyPath));
          bytes := bytes - candidate.bytes;
          objects := objects - 1;
          if metaFails {
            return true, true;
          }
          fs := Do(fs, Unlink(metaPath));
          return true, false;
      }
    }

    /** One metadata file of the age walk: the body is unlinked before its metadata. */
    method CollectKey(key: Key, cutoff: int, bodyFails: bool, metaFails: bool) returns (r: GcResult)
      requires Valid()
      modifies this
      ensures Valid() && State() == AfterCollection(old(State()), key, cutoff, bodyFails, metaFails)
      ensures r == Tally(Judge(old(fs), key, cutoff), bodyFails, metaFails)
    {
      CollectWf(fs, key, cutoff, bodyFails, metaFails);
      match Judge(fs, key, cutoff) {
        case Keep => return GcResult(0, 0, 0);
        case Skip => return GcResult(0, 0, 1);
        case Expired(bodyPath, size) =>
          if bodyFails {
            return GcResult(0, 0, 1);
          }
          Step1(fs, Unlink(bodyPath), {});
          Step2(fs, Unlink(bodyPath), Unlink(MetaFile(key)), {});
          fs := Do(fs, Unlink(bodyPath));
          bytes := bytes - size;
          objects := objects - 1;
          if metaFails {
            return GcResult(1, size, 1);
          }
          fs := Do(fs, Unlink(MetaFile(key)));
          return GcResult(1, size, 0);
      }
    }

    /** Age collection over the metadata files in the order of the walk; a walk that fails part
        way stops there. AgeCollectionIsExact says what a run of the fold amounts to. */
    method GC(maxAge: int, now: int, bodyFails: set<Key>, metaFails: set<Key>, walkFails: set<Key>)
      returns (result: GcResult, failed: bool, ghost order: seq<Key>)
      requires Valid()
      modifies this
      ensures Valid()
      ensures maxAge <= 0 ==> failed && State() == old(State()) && result == GcResult(0, 0, 0)
      ensures maxAge > 0 ==> GcRun(State(), result) == GcFold(old(State()), order, now - maxAge, bodyFails, metaFails)
      ensures WalkOf(old(fs), order)
      ensures maxAge > 0 && !failed ==> Visited(order) == MetaKeys(old(fs))
      ensures failed ==> maxAge <= 0 || walkFails != {}
    {
      result, failed, order := GcResult(0, 0, 0), false, [];
      ghost var start := State();
      if maxAge <= 0 {
        return result, true, [];
      }
      var cutoff := now - maxAge;
      var todo := MetaKeys(fs);
      while todo != {}
        invariant Valid() && Walked(start.fs, order, todo)
        invariant GcRun(State(), result) == GcFold(start, order, cutoff, bodyFails, metaFails)
      {
        var key :| key in todo;
        if key in walkFails {
          return result, true, order;
        }
        GcFoldStep(start, order, key, cutoff, bodyFails, metaFails);
        WalkStep(start.fs, order, todo, key);
        var one := CollectKey(key, cutoff, key in bodyFails, key in metaFails);
        result := Plus(result, one);
        todo, order := todo - {key}, order + [key];
      }
    }

    /** Removes exactly the stale temporary files no put is using; the first failure stops it.
        Readers and the usage counters see nothing of it. */
    method CleanupStaleTemps(maxAge: int, now: int, unlinkFails: set<Path>, encoded: Metadata -> nat)
      returns (result: CleanupResult, failed: bool, ghost removed: set<Path>)
      requires Valid()
      modifies this`fs
      ensures Valid() && View(fs) == View(old(fs))
      ensures fs == Without(old(fs), removed)
      ensures removed <= StaleTemps(old(State()), now - maxAge)
      ensures failed ==> maxAge <= 0 || unlinkFails != {}
      ensures failed && maxAge <= 0 ==> removed == {}
      ensures !failed ==> maxAge > 0 && removed == StaleTemps(old(State()), now - maxAge)
      ensures result == CleanupResult(|removed|, Total(SizesOf(old(fs), removed, encoded)))
    {
      removed, result, failed := {}, CleanupResult(0, 0), false;
      ghost var start := fs;
      assert Without(start, {}) == start;
      if maxAge <= 0 {
        return result, true, {};
      }
      var cutoff := now - maxAge;
      var todo := TempNames(fs);
      ghost var stale := StaleTemps(State(), cutoff);
      while todo != {}
        invariant fs == Without(start, removed) && todo <= TempNames(start) && todo !! removed
        invariant removed <= stale && stale - todo <= removed
        invariant result == CleanupResult(|removed|, Total(SizesOf(start, removed, encoded)))
      {
        var path :| path in todo;
        CleanupStep(start, removed, path, encoded);
        if path !in activeTemps && MtimeAt(fs, path) <= cutoff {
          if path in unlinkFails {
            failed := true;
            break;
          }
          result := CleanupResult(result.files + 1, result.bytes + SizeAt(fs, path, encoded));
          fs := Do(fs, Unlink(path));
          removed := removed + {path};
        }
        todo := todo - {path};
      }
      CleanupIsInvisible(start, removed);
    }

    /** One syscall, recorded after the ones already issued. */
    method Issue(a: Action, ghost start: FS, ghost done: seq<Action>)
      requires fs == Run(start, done)
      modifies this`fs
      ensures fs == Do(old(fs), a) && fs == Run(start, done + [a])
    {
      RunConcat(start, done, [a]);
      Step1(fs, a, {});
      fs := Do(fs, a);
    }

    /** The region under the store's lock that publishes a prepared put. Whether the reservation
        is refused is not a fault of the disk but what the reservation says. */
    method CommitRegion(job: PutJob, f: CommitFaults, reservation: Reservation?, ghost body: seq<Byte>)
      returns (ok: bool)
      requires job.meta.contentBytes == |body|
      requires reservation != null ==> Covers(reservation, 0)
      requires f.refused == Refuses(reservation, |body|, PreviousOf(fs, job.key).bytes)
      modifies this, reservation, if reservation == null then {} else {reservation.controller}
      ensures State() == AfterCommit(old(State()), job, f)
      ensures ok == CommitOk(old(fs), job, f)
      ensures reservation != null ==>
                SettledBy(reservation, Attempted(old(fs), job, f), old(reservation.controller.State()),
                          old(reservation.controller.open), old(reservation.controller.cap),
                          |body|, PreviousOf(old(fs), job.key).bytes)
    {
      ghost var start := fs;
      var previous := PreviousOf(fs, job.key);
      ok := PublishFiles(job, f);
      if ok {
        ghost var middle := ReplaceActs(MetaFile(job.key) in start.names, job.Meta(), MetaFile(job.key), f);
        ok := FinishCommit(job, f, reservation, body, previous, start, PlaceActs(job) + middle);
        assert fs == Run(start, CommitActs(start, job, f));
      }
    }

    /** Body, then metadata: on failure everything placed so far is taken away again. */
    method PublishFiles(job: PutJob, f: CommitFaults) returns (live: bool)
      modifies this`fs
      ensures live == Attempted(old(fs), job, f)
      ensures live ==>
                fs == Run(old(fs), PlaceActs(job)
                                   + ReplaceActs(MetaFile(job.key) in old(fs).names, job.Meta(), MetaFile(job.key), f))
      ensures !live ==> fs == Run(old(fs), CommitActs(old(fs), job, f))
    {
      ghost var start := fs;
      var metaPath := MetaFile(job.key);
      ghost var middle := ReplaceActs(metaPath in fs.names, job.Meta(), metaPath, f);
      live := Place(job, f);
      if !live {
        return;
      }
      PlaceKeepsMetaNames(start, job, job.key);
      live := Replace(job.Meta(), metaPath, f, start, PlaceActs(job));
      if !live {
        Undo(job, f, start, PlaceActs(job) + middle);
      }
    }

    /** The body's rename and its access time; a body that cannot be dated is taken away again. */
    method Place(job: PutJob, f: CommitFaults) returns (placed: bool)
      modifies this`fs
      ensures placed <==> !f.renameBody && !f.setTime
      ensures placed ==> fs == Run(old(fs), PlaceActs(job))
      ensures !placed ==> fs == Run(old(fs), CommitActs(old(fs), job, f))
    {
      ghost var start := fs;
      if f.renameBody {
        return false;
      }
      Issue(Rename(job.BodyFile(), job.Target()), start, []);
      ghost var done := [Rename(job.BodyFile(), job.Target())];
      assert [] + done == done;
      if f.setTime {
        Undo(job, f, start, done);
        return false;
      }
      Issue(Chtimes(job.Target(), job.meta.storedAt), start, done);
      assert PlaceActs(job) == done + [Chtimes(job.Target(), job.meta.storedAt)];
      return true;
    }

    /** Takes a placed body away again. */
    method Undo(job: PutJob, f: CommitFaults, ghost start: FS, ghost done: seq<Action>)
      requires fs == Run(start, done)
      modifies this`fs
      ensures fs == Run(start, done + UndoActs(job, f))
    {
      assert done + [] == done;
      if !f.removeTarget { Issue(Unlink(job.Target()), start, done); }
    }

    /** Takes the superseded body away. */
    method Retire(job: PutJob, f: CommitFaults, previous: Option<Path>, ghost start: FS, ghost done: seq<Action>)
      requires fs == Run(start, done)
      modifies this`fs
      ensures fs == Run(start, done + Retired(job, previous, f))
    {
      assert done + [] == done;
      if previous.Some? && previous.value != job.Target() && !f.removePrevious {
        Issue(Unlink(previous.value), start, done);
      }
    }

    /** The metadata names the new body: settle the reservation, count, retire the old body. A
        refused reservation takes the new body away again. */
    method FinishCommit(job: PutJob, f: CommitFaults, reservation: Reservation?, ghost body: seq<Byte>,
                        previous: Previous, ghost start: FS, ghost done: seq<Action>) returns (ok: bool)
      requires fs == Run(start, done) && job.meta.contentBytes == |body|
      requires reservation != null ==> Covers(reservation, 0) == true
      requires f.refused == Refuses(reservation, |body|, previous.bytes)
      modifies this, reservation, if reservation == null then {} else {reservation.controller}
      ensures activeTemps == old(activeTemps) && ok == !f.refused
      ensures ok ==> bytes == old(bytes) + |body| - previous.bytes
                     && objects == old(objects) + (if previous.valid then 0 else 1)
                     && fs == Run(start, done + Retired(job, previous.path, f))
      ensures !ok ==> bytes == old(bytes) && objects == old(objects) && fs == Run(start, done + UndoActs(job, f))
      ensures reservation != null ==>
                SettledBy(reservation, true, old(reservation.controller.State()), old(reservation.controller.open),
                          old(reservation.controller.cap), |body|, previous.bytes) == true
    {
      if reservation != null {
        ok := reservation.Commit(Wrap(job.meta.contentBytes), Wrap(previous.bytes));
        if !ok {
          Undo(job, f, start, done);
          return;
        }
      }
      ok := true;
      bytes := bytes + job.meta.contentBytes - previous.bytes;
      if !previous.valid {
        objects := objects + 1;
      }
      Retire(job, f, previous.path, start, done);
    }

    method Replace(from: Path, to: Path, f: CommitFaults, ghost start: FS, ghost done: seq<Action>) returns (ok: bool)
      requires fs == Run(start, done)
      modifies this`fs
      ensures fs == Run(start, done + ReplaceActs(to in old(fs).names, from, to, f))
      ensures ok == ReplaceOk(to in old(fs).names, f)
    {
      if !f.renameMeta {
        Issue(Rename(from, to), start, done);
        return true;
      }
      if to in fs.names {
        if f.removeMeta {
          assert done + [] == done;
          return false;
        }
        Issue(Unlink(to), start, done);
        if f.renameMetaAgain {
          return false;
        }
        Issue(Rename(from, to), start, done + [Unlink(to)]);
        assert done + [Unlink(to)] + [Rename(from, to)] == done + [Unlink(to), Rename(from, to)];
        return true;
      }
      if f.renameMetaAgain {
        assert done + [] == done;
        return false;
      }
      Issue(Rename(from, to), start, done);
      return true;
    }

    method BeginTemp(temp: Path, now: int)
      modifies this`fs, this`activeTemps
      ensures fs == Do(old(fs), Create(temp, now)) && activeTemps == old(activeTemps) + {temp}
    {
      fs := Do(fs, Create(temp, now));
      activeTemps := activeTemps + {temp};
    }

    /** The deferred clean-up of a temporary file: removed before its name is released. */
    method Forget(temp: Path, unlinkFails: bool)
      modifies this`fs, this`activeTemps
      ensures State() == Forgotten(old(State()), temp, unlinkFails)
    {
      if !unlinkFails {
        fs := Do(fs, Unlink(temp));
      }
      activeTemps := activeTemps - {temp};
    }

    /** Creates and writes the metadata's temporary file. */
    method Prepare(job: PutJob, now: int)
      modifies this`fs, this`activeTemps
      ensures State() == Prepared(old(State()), job, now)
    {
      BeginTemp(job.Meta(), now);
      fs := Do(fs, Encode(job.Meta(), job.meta, now));
    }

    /** From the metadata's temporary file to the end of its deferred clean-up. */
    method Publish(job: PutJob, env: PutEnv, reservation: Reservation?, ghost body: seq<Byte>) returns (ok: bool)
      requires !env.createMetaFails && !env.commit.refused && job.meta.contentBytes == |body|
      requires reservation != null ==> Covers(reservation, |body|)
                                       && Affords(reservation,
                                                  PreviousOf(Prepared(State(), job, env.now).fs, job.key).bytes)
      modifies this, reservation, if reservation == null then {} else {reservation.controller}
      ensures ok <==> !env.writeMetaFails && CommitOk(Prepared(old(State()), job, env.now).fs, job, env.commit)
      ensures env.writeMetaFails ==>
                State() == Forgotten(Prepared(old(State()), job, env.now), job.Meta(), env.metaUnlinkFails)
      ensures !env.writeMetaFails ==>
                State() == Forgotten(AfterCommit(Prepared(old(State()), job, env.now), job, env.commit),
                                     job.Meta(), env.metaUnlinkFails)
      ensures reservation != null ==>
                SettledBy(reservation, ok, old(reservation.controller.State()),
                          old(reservation.controller.open), old(reservation.controller.cap),
                          |body|, PreviousOf(Prepared(old(State()), job, env.now).fs, job.key).bytes)
    {
      Prepare(job, env.now);
      if env.writeMetaFails {
        ok := false;
      } else {
        ok := CommitRegion(job, env.commit, reservation, body);
      }
      Forget(job.Meta(), env.metaUnlinkFails);
    }

    /** Streams the source to the client and into the body's temporary file. */
    method Spool(source: Source, client: Client, limit: int, env: PutEnv)
      returns (r: SpoolResult, ghost cached: seq<Byte>)
      modifies this`fs, this`activeTemps, client
      ensures State() == Spooled(old(State()), BodyTemp(env.bodySuffix), cached, env.now)
      ensures r.copied <==> Arrives(source, client.fault, old(client.writes), env.cacheFaultAt, limit)
      ensures r.copied ==> client.received == old(client.received) + source.Content() && r.hashed == source.Content()
      ensures r.copied ==> (r.overflow <==> limit >= 0 && |source.Content()| > limit)
      ensures r.copied && !r.overflow ==> cached == source.Content()
      ensures limit >= 0 ==> |cached| <= limit
    {
      BeginTemp(BodyTemp(env.bodySuffix), env.now);
      var sink := new BoundedCacheWriter(client, limit, true, env.cacheFaultAt);
      var written, hashed, copied := CopyThrough(source, sink);
      r, cached := SpoolResult(copied, sink.overflow, hashed), sink.cached;
      fs := Do(fs, Append(BodyTemp(env.bodySuffix), sink.cached, env.now));
    }

    /** From a spooled body to the end of the put: metadata, commit region, clean-ups. */
    method PublishAndClose(ghost before: StoreState, job: PutJob, env: PutEnv, reservation: Reservation?,
                           ghost body: seq<Byte>)
      returns (r: PutResult)
      requires Spoolable(before, job, env, body)
      requires State() == Spooled(before, job.BodyFile(), body, env.now)
      requires reservation != null ==>
                 Covers(reservation, |body|) && Affords(reservation, PreviousOf(before.fs, job.key).bytes)
      modifies this, reservation, if reservation == null then {} else {reservation.controller}
      ensures !r.Bypassed? && PutEnds(before, State(), job.key, Entry(job.meta, body), env, r)
      ensures r.Stored? <==> Publishes(MetaFile(job.key) in before.fs.names, env)
      ensures reservation != null ==> SettledBy(reservation, r.Stored?, old(reservation.controller.State()),
                                                old(reservation.controller.open), old(reservation.controller.cap),
                                                |body|, PreviousOf(before.fs, job.key).bytes)
    {
      EnterPublish(before, State(), job, env, body);
      var ok := Publish(job, env, reservation, body);
      Forget(job.BodyFile(), env.bodyUnlinkFails);
      r := if ok then Stored else Rejected(!env.writeMetaFails);
      ClosePut(before, State(), job, body, env, ok, r);
    }

    /** A put that gives up after spooling removes its temporary file and changes nothing else. */
    method Abandon(ghost before: StoreState, key: Key, env: PutEnv, ghost cached: seq<Byte>, ghost entry: Entry)
      requires Wf(before.fs) && FreshSuffixes(before, key, env.bodySuffix, env.metaSuffix)
      requires State() == Spooled(before, BodyTemp(env.bodySuffix), cached, env.now)
      modifies this
      ensures PutEnds(before, State(), key, entry, env, Rejected(false))
      ensures PutEnds(before, State(), key, entry, env, PutResult.Bypassed)
      ensures State() == Forgotten(old(State()), BodyTemp(env.bodySuffix), env.bodyUnlinkFails)
    {
      Forget(BodyTemp(env.bodySuffix), env.bodyUnlinkFails);
      AbandonedEnds(before, State(), key, env, cached, entry);
    }

    /** A put that gives up: an object longer than its reservation is recorded as passed over. */
    method GiveUp(ghost before: StoreState, key: Key, env: PutEnv, ghost cached: seq<Byte>, ghost entry: Entry,
                  overflow: bool, content: seq<Byte>, reservation: Reservation?, ghost replaced: nat)
      returns (r: PutResult)
      requires Wf(before.fs) && FreshSuffixes(before, key, env.bodySuffix, env.metaSuffix)
      requires State() == Spooled(before, BodyTemp(env.bodySuffix), cached, env.now)
      requires overflow ==> reservation != null
      requires reservation != null ==> Covers(reservation, 0)
      modifies this, if reservation == null then {} else {reservation.controller}
      ensures r == if overflow then PutResult.Bypassed else Rejected(false)
      ensures State() == Forgotten(old(State()), BodyTemp(env.bodySuffix), env.bodyUnlinkFails)
      ensures PutEnds(before, State(), key, entry, env, r)
      ensures reservation != null ==>
                SettledBy(reservation, false, Noted(old(reservation.controller.State()), r, content),
                          old(reservation.controller.open), old(reservation.controller.cap), |content|, replaced)
    {
      if overflow {
        reservation.controller.RecordBypass(Wrap(|content|));
      }
      r := if overflow then PutResult.Bypassed else Rejected(false);
      Abandon(before, key, env, cached, entry);
    }

    /** After spooling: verify, then publish, pass over an overflowing body, or give up. */
    method Conclude(ghost before: StoreState, key: Key, metadata: Metadata, spool: SpoolResult, ghost cached: seq<Byte>,
                    ghost content: seq<Byte>, verify: Option<seq<Byte> -> bool>, env: PutEnv, reservation: Reservation?)
      returns (r: PutResult)
      requires Wf(before.fs) && FreshSuffixes(before, key, env.bodySuffix, env.metaSuffix) && !env.commit.refused
      requires State() == Spooled(before, BodyTemp(env.bodySuffix), cached, env.now)
      requires spool.copied ==> spool.hashed == content && (spool.overflow || cached == content)
      requires spool.copied && spool.overflow ==> reservation != null
      requires reservation != null ==>
                 Covers(reservation, |cached|) && Affords(reservation, PreviousOf(before.fs, key).bytes)
      modifies this, reservation, if reservation == null then {} else {reservation.controller}
      ensures r.Stored? <==> spool.copied && !spool.overflow && !env.syncFails && Accepts(verify, content)
                             && Publishes(MetaFile(key) in before.fs.names, env)
      ensures r.Bypassed? <==> spool.copied && spool.overflow && !env.syncFails && Accepts(verify, content)
      ensures PutEnds(before, State(), key, StoredEntry(metadata, key, env, content), env, r)
      ensures !spool.copied || (verify.Some? && !verify.value(content)) ==>
                r == Rejected(false)
                && State() == Forgotten(old(State()), BodyTemp(env.bodySuffix), env.bodyUnlinkFails)
      ensures reservation != null ==>
                SettledBy(reservation, r.Stored?, Noted(old(reservation.controller.State()), r, content),
                          old(reservation.controller.open), old(reservation.controller.cap),
                          |content|, PreviousOf(before.fs, key).bytes)
    {
      var sound := spool.copied && !env.syncFails && (verify.None? || verify.value(spool.hashed));
      if sound && !spool.overflow && !env.createMetaFails {
        r := PublishAndClose(before, JobFor(metadata, key, env, spool.hashed), env, reservation, cached);
      } else {
        ghost var entry := StoredEntry(metadata, key, env, content);
        ghost var replaced := PreviousOf(before.fs, key).bytes;
        r := GiveUp(before, key, env, cached, entry, sound && spool.overflow, spool.hashed, reservation, replaced);
      }
    }

    /** Everything after admission: spool, verify, publish, and the deferred clean-ups. */
    method PutSpooled(key: Key, metadata: Metadata, source: Source, client: Client,
                      verify: Option<seq<Byte> -> bool>, env: PutEnv, reservation: Reservation?)
      returns (r: PutResult, ghost cached: seq<Byte>)
      requires Valid() && FreshSuffixes(State(), key, env.bodySuffix, env.metaSuffix) && !env.commit.refused
      requires reservation != null ==> Covers(reservation, 0) && Affords(reservation, PreviousOf(fs, key).bytes)
      modifies this, client, reservation, if reservation == null then {} else {reservation.controller}
      ensures var limit := if reservation == null then -1 else reservation.bytes as int;
              && (r.Stored? <==> Stores(source, client.fault, old(client.writes), limit,
                                        Accepts(verify, source.Content()), env, MetaFile(key) in old(fs).names))
              && (r.Bypassed? <==> PassesOver(source, client.fault, old(client.writes), limit,
                                              Accepts(verify, source.Content()), env))
              && (Arrives(source, client.fault, old(client.writes), env.cacheFaultAt, limit) ==>
                    client.received == old(client.received) + source.Content())
      ensures PutEnds(old(State()), State(), key, StoredEntry(metadata, key, env, source.Content()), env, r)
      ensures reservation != null ==>
                SettledBy(reservation, r.Stored?, Noted(old(reservation.controller.State()), r, source.Content()),
                          old(reservation.controller.open), old(reservation.controller.cap),
                          |source.Content()|, PreviousOf(old(fs), key).bytes)
      ensures verify.Some? && !verify.value(source.Content()) ==>
                State() == Forgotten(Spooled(old(State()), BodyTemp(env.bodySuffix), cached, env.now),
                                     BodyTemp(env.bodySuffix), env.bodyUnlinkFails)
    {
      ghost var before := State();
      var limit := if reservation == null then -1 else reservation.bytes as int;
      var spool: SpoolResult;
      spool, cached := Spool(source, client, limit, env);
      r := Conclude(before, key, metadata, spool, cached, source.Content(), verify, env, reservation);
    }

    /** A put that holds a reservation: whatever happens, the reservation is settled at the end. */
    method PutReserved(key: Key, metadata: Metadata, source: Source, client: Client,
                       verify: Option<seq<Byte> -> bool>, env: PutEnv, reservation: Reservation)
      returns (r: PutResult)
      requires Valid() && FreshSuffixes(State(), key, env.bodySuffix, env.metaSuffix) == true && !env.commit.refused
      requires Covers(reservation, 0) == true && Accounted(State(), reservation.controller) == true
      modifies this, client, reservation, reservation.controller
      ensures r.Stored? <==>
                && !env.mkdirFails && !env.createBodyFails
                && Stores(source, client.fault, old(client.writes), reservation.bytes as int,
                          Accepts(verify, source.Content()), env, MetaFile(key) in old(fs).names)
      ensures r.Bypassed? <==>
                && !env.mkdirFails && !env.createBodyFails
                && PassesOver(source, client.fault, old(client.writes), reservation.bytes as int,
                              Accepts(verify, source.Content()), env)
      ensures !env.mkdirFails && !env.createBodyFails
              && Arrives(source, client.fault, old(client.writes), env.cacheFaultAt, reservation.bytes as int) ==>
                client.received == old(client.received) + source.Content()
      ensures PutEnds(old(State()), State(), key, StoredEntry(metadata, key, env, source.Content()), env, r) == true
      ensures Balanced(reservation.controller, old(reservation.controller.open) - {reservation},
                       old(reservation.controller.cap), old(reservation.controller.committed),
                       old(bytes), bytes) == true
      ensures SameBypasses(reservation.controller.State(),
                           Noted(old(reservation.controller.State()), r, source.Content())) == true
    {
      if env.mkdirFails || env.createBodyFails {
        r := Rejected(false);
        NothingStored(State(), State(), key, StoredEntry(metadata, key, env, source.Content()));
        reservation.Release();
      } else {
        ghost var replaced := PreviousOf(fs, key).bytes;
        ReplacedFitsCounter(State(), key);
        ghost var ledger, open, cap := reservation.controller.State(), reservation.controller.open,
                                       reservation.controller.cap;
        ghost var cached;
        r, cached := PutSpooled(key, metadata, source, client, verify, env, reservation);
        SettleUp(reservation, r.Stored?, ledger, Noted(ledger, r, source.Content()), open, cap, |source.Content()|,
                 replaced,
                 old(bytes), bytes);
      }
    }

    /** The deferred release: a no-op after a commit. */
    method SettleUp(reservation: Reservation, ghost ok: bool, ghost start: Ledger, ghost ledger: Ledger,
                    ghost open: map<Reservation, nat>, ghost cap: int, ghost actual: nat, ghost replaced: nat,
                    ghost before: int, ghost after: int)
      requires SettledBy(reservation, ok, ledger, open, cap, actual, replaced)
      requires !ok ==> reservation in open
      requires start.committed == ledger.committed && replaced <= ledger.committed as int
      requires ok ==> actual <= reservation.bytes as int
      requires after == before + if ok then actual - replaced else 0
      modifies reservation, reservation.controller
      ensures Balanced(reservation.controller, open - {reservation}, cap, start.committed, before, after)
      ensures SameBypasses(reservation.controller.State(), ledger)
    {
      reservation.Release();
    }

    /** A response too large, of unknown size, or without room in the budget is only proxied. */
    method ProxyOnly(key: Key, ghost env: PutEnv, ghost entry: Entry, source: Source, client: Client)
      returns (r: PutResult)
      requires Valid() && controller != null && controller.Valid()
      modifies client
      ensures (r.Bypassed? || r == Rejected(false)) && PutEnds(State(), State(), key, entry, env, r)
      ensures r.Bypassed? <==> !source.fails && !Trips(client.fault, old(client.writes), source.chunks)
      ensures !Trips(client.fault, old(client.writes), source.chunks) ==>
                client.received == old(client.received) + source.Content()
      ensures Balanced(controller, old(controller.open), old(controller.cap), old(controller.committed), bytes, bytes)
    {
      NothingStored(State(), State(), key, entry);
      var ok := CopyPlain(source, client);
      r := if ok then PutResult.Bypassed else Rejected(false);
    }

    /** A put under the shared budget: admitted with a reservation of the declared length, or proxied. */
    method PutBudgeted(key: Key, metadata: Metadata, source: Source, client: Client,
                       verify: Option<seq<Byte> -> bool>, env: PutEnv)
      returns (r: PutResult)
      requires Valid() && FreshSuffixes(State(), key, env.bodySuffix, env.metaSuffix) && !env.commit.refused
      requires controller != null && controller.Valid() && Accounted(State(), controller)
      requires ContentLength(metadata.header).Some? && env.freeBytes.Some?
      modifies this, client, controller
      ensures var length, free := ContentLength(metadata.header).value, env.freeBytes.value;
              var admitted := Admits(old(controller.State()), length, free);
              && (r.Stored? <==>
                    && admitted && !env.mkdirFails && !env.createBodyFails
                    && Stores(source, client.fault, old(client.writes), length as int,
                              Accepts(verify, source.Content()), env, MetaFile(key) in old(fs).names))
              && (r.Bypassed? <==>
                    if admitted then
                      !env.mkdirFails && !env.createBodyFails
                      && PassesOver(source, client.fault, old(client.writes), length as int,
                                    Accepts(verify, source.Content()), env)
                    else !source.fails && !Trips(client.fault, old(client.writes), source.chunks))
              && ((if admitted then
                     !env.mkdirFails && !env.createBodyFails
                     && Arrives(source, client.fault, old(client.writes), env.cacheFaultAt, length as int)
                   else !Trips(client.fault, old(client.writes), source.chunks)) ==>
                    client.received == old(client.received) + source.Content())
      ensures PutEnds(old(State()), State(), key, StoredEntry(metadata, key, env, source.Content()), env, r) == true
      ensures Balanced(controller, old(controller.open), old(controller.cap), old(controller.committed), old(bytes),
                       bytes) == true
      ensures SameBypasses(controller.State(),
                           PassesNoted(old(controller.State()), ContentLength(metadata.header), env.freeBytes, r,
                                       source.Content())) == true
    {
      ghost var ledger, length, free := controller.State(), ContentLength(metadata.header), env.freeBytes;
      var reservation := controller.Reserve(ContentLength(metadata.header).value, env.freeBytes.value);
      if reservation == null {
        r := ProxyOnly(key, env, StoredEntry(metadata, key, env, source.Content()), source, client);
      } else {
        assert old(controller.open)[reservation := reservation.bytes as nat] - {reservation} == old(controller.open);
        r := PutReserved(key, metadata, source, client, verify, env, reservation);
      }
      ReserveNotes(ledger, length, free, r, source.Content(), controller.State());
    }

    /** The put itself: under a shared budget with a reservation, or straight to the cache. */
    method Put(key: Key, metadata: Metadata, source: Source, client: Client,
               verify: Option<seq<Byte> -> bool>, env: PutEnv)
      returns (r: PutResult)
      requires Valid() && FreshSuffixes(State(), key, env.bodySuffix, env.metaSuffix) && !env.commit.refused
      requires controller != null ==> controller.Valid() && Accounted(State(), controller)
      modifies this, client, if controller == null then {} else {controller}
      ensures r.Stored? <==> PutStores(old(Budget()), metadata.header, source, client.fault, old(client.writes),
                                       Accepts(verify, source.Content()), env, MetaFile(key) in old(fs).names)
      ensures r.Bypassed? <==> PutBypasses(old(Budget()), metadata.header, source, client.fault, old(client.writes),
                                           Accepts(verify, source.Content()), env)
      ensures PutDelivers(old(Budget()), metadata.header, source, client.fault, old(client.writes), env) ==>
                client.received == old(client.received) + source.Content()
      ensures !r.Rejected? ==> client.received == old(client.received) + source.Content()
      ensures PutEnds(old(State()), State(), key, StoredEntry(metadata, key, env, source.Content()), env, r)
      ensures controller != null ==> Balanced(controller, old(controller.open), old(controller.cap),
                                              old(controller.committed), old(bytes), bytes)
      ensures controller != null ==>
                SameBypasses(controller.State(),
                             PassesNoted(old(controller.State()), ContentLength(metadata.header), env.freeBytes, r,
                                         source.Content())) == true
    {
      ghost var entry := StoredEntry(metadata, key, env, source.Content());
      if controller == null && !env.mkdirFails && !env.createBodyFails {
        ghost var cached;
        r, cached := PutSpooled(key, metadata, source, client, verify, env, null);
      } else if controller == null || env.freeBytes.None? {
        NothingStored(State(), State(), key, entry);
        r := Rejected(false);
      } else if ContentLength(metadata.header).None? {
        controller.RecordBypass(0);
        r := ProxyOnly(key, env, entry, source, client);
      } else {
        BudgetDecides(controller.State(), metadata.header, ContentLength(metadata.header).value, env.freeBytes.value,
                      source, client.fault, client.writes, Accepts(verify, source.Content()), env,
                      MetaFile(key) in fs.names);
        r := PutBudgeted(key, metadata, source, client, verify, env);
      }
    }

    /** A complete put. Success means that the client got exactly the source; stored means that the
        verifier accepted exactly those bytes and the key now serves them; and whatever fails, no
        temporary name stays in use, no reservation stays open, and the budget moved as the store. */
    method PutStreamVerified(key: Key, metadata: Metadata, source: Source, client: Client,
                             verify: Option<seq<Byte> -> bool>, env: PutEnv)
      returns (r: PutResult)
      requires Valid() && FreshSuffixes(State(), key, env.bodySuffix, env.metaSuffix) && !env.commit.refused
      requires controller != null ==> controller.Valid() && Accounted(State(), controller)
      modifies this, client, if controller == null then {} else {controller}
      ensures Valid()
      ensures r.Stored? <==>
                && (controller != null ==>
                      && env.freeBytes.Some? && ContentLength(metadata.header).Some?
                      && var length := ContentLength(metadata.header).value as int;
                      && (controller.maxBytes > 0 ==>
                            old(controller.committed) as int + old(controller.reserved) as int + length
                            <= controller.maxBytes as int)
                      && (controller.minFreeBytes > 0 ==>
                            old(controller.reserved) as int + length
                            <= env.freeBytes.value as int - controller.minFreeBytes as int)
                      && |source.Content()| <= length)
                && !env.mkdirFails && !env.createBodyFails
                && !source.fails && !Trips(client.fault, old(client.writes), source.chunks)
                && !CacheTrips(env.cacheFaultAt, SpoolLimit(old(Budget()), metadata.header), source.chunks)
                && !env.syncFails && (verify.Some? ==> verify.value(source.Content()))
                && !env.createMetaFails && !env.writeMetaFails && !env.commit.renameBody && !env.commit.setTime
                && (env.commit.renameMeta ==>
                      && !env.commit.renameMetaAgain
                      && (MetaFile(key) in old(fs).names ==> !env.commit.removeMeta))
      ensures r.Bypassed? <==>
                && controller != null && env.freeBytes.Some?
                && !source.fails && !Trips(client.fault, old(client.writes), source.chunks)
                && (ContentLength(metadata.header).Some? ==>
                      var length := ContentLength(metadata.header).value as int;
                      (&& (controller.maxBytes > 0 ==>
                             old(controller.committed) as int + old(controller.reserved) as int + length
                             <= controller.maxBytes as int)
                       && (controller.minFreeBytes > 0 ==>
                             old(controller.reserved) as int + length
                             <= env.freeBytes.value as int - controller.minFreeBytes as int)) ==>
                        && |source.Content()| > length && !env.mkdirFails && !env.createBodyFails
                        && !CacheTrips(env.cacheFaultAt, length, source.chunks)
                        && !env.syncFails && (verify.Some? ==> verify.value(source.Content())))
      ensures PutDelivers(old(Budget()), metadata.header, source, client.fault, old(client.writes), env) ==>
                client.received == old(client.received) + source.Content()
      ensures r.Stored? <==> PutStores(old(Budget()), metadata.header, source, client.fault, old(client.writes),
                                       Accepts(verify, source.Content()), env, MetaFile(key) in old(fs).names)
      ensures !r.Rejected? ==> client.received == old(client.received) + source.Content()
      ensures r.Stored? ==>
                && key in View(fs) && View(fs) == old(View(fs))[key := View(fs)[key]]
                && View(fs)[key].body == source.Content() && View(fs)[key].meta.storedAt == env.now
                && View(fs)[key].meta.status == metadata.status
                && View(fs)[key].meta.contentDigest == metadata.contentDigest
                && View(fs)[key].meta.header == HttpPolicy.CacheMetadataHeaders(metadata.header)
                && Generation(key, env.bodySuffix) in fs.names
                && MtimeAt(fs, Generation(key, env.bodySuffix)) == env.now
      ensures !r.Stored? ==>
                View(fs) == if r == Rejected(true) && FallbackLoses(env.commit) then old(View(fs)) - {key}
                            else old(View(fs))
      ensures PutEnds(old(State()), State(), key, StoredEntry(metadata, key, env, source.Content()), env, r)
      ensures controller != null ==> Balanced(controller, old(controller.open), old(controller.cap),
                                              old(controller.committed), old(bytes), bytes)
      ensures controller != null ==>
                var length := ContentLength(metadata.header);
                var passed := if env.freeBytes.None? then None
                              else if length.None? then Some(0)
                              else if !Admitted(old(controller.State()), length, env.freeBytes) then length
                              else if r.Bypassed? then Some(Wrap(|source.Content()|)) else None;
                && controller.bypassObjects
                   == (if passed.Some? then SaturatingAdd(old(controller.bypassObjects), 1)
                       else old(controller.bypassObjects))
                && controller.bypassBytes
                   == (if passed.Some? && passed.value > 0 then SaturatingAdd(old(controller.bypassBytes), passed.value)
                       else old(controller.bypassBytes))
    {
      ghost var budget := Budget();
      if budget.Some? {
        AdmittedInFull(budget.value, ContentLength(metadata.header), env.freeBytes);
      }
      StoresInFull(budget, metadata.header, source, client.fault, client.writes, Accepts(verify, source.Content()), env,
                   MetaFile(key) in fs.names);
      r := Put(key, metadata, source, client, verify, env);
    }
  }

  /** There is room for a response of that length. */
  predicate Admitted(l: Ledger, length: Option<int64>, free: Option<int64>) {
    length.Some? && free.Some? && Admits(l, length.value, free.value)
  }

  lemma AdmittedInFull(l: Ledger, length: Option<int64>, free: Option<int64>)
    requires l.committed >= 0 && l.reserved >= 0 && (length.Some? ==> length.value > 0)
    ensures Admitted(l, length, free) <==>
              && length.Some? && free.Some?
              && (l.maxBytes > 0 ==> l.committed as int + l.reserved as int + length.value as int <= l.maxBytes as int)
              && (l.minFreeBytes > 0 ==>
                    l.reserved as int + length.value as int <= free.value as int - l.minFreeBytes as int)
  {
    if length.Some? && free.Some? { AdmitsWhatFits(l, length.value, free.value); }
  }

  /** What a put under a budget comes to, once its length and the free space are known. */
  lemma BudgetDecides(l: Ledger, h: Header, length: int64, free: int64, source: Source, fault: Option<Fault>,
                      first: nat, accepted: bool, env: PutEnv, present: bool)
    requires ContentLength(h) == Some(length) && env.freeBytes == Some(free)
    ensures PutStores(Some(l), h, source, fault, first, accepted, env, present) <==>
              Admits(l, length, free) && !env.mkdirFails && !env.createBodyFails
              && Stores(source, fault, first, length as int, accepted, env, present)
    ensures PutBypasses(Some(l), h, source, fault, first, accepted, env) <==>
              if Admits(l, length, free) then
                !env.mkdirFails && !env.createBodyFails
                && PassesOver(source, fault, first, length as int, accepted, env)
              else !source.fails && !Trips(fault, first, source.chunks)
    ensures PutDelivers(Some(l), h, source, fault, first, env) <==>
              if Admits(l, length, free) then
                !env.mkdirFails && !env.createBodyFails
                && Arrives(source, fault, first, env.cacheFaultAt, length as int)
              else !Trips(fault, first, source.chunks)
  {
  }

  lemma StoresInFull(budget: Option<Ledger>, h: Header, source: Source, fault: Option<Fault>, first: nat,
                     accepted: bool, env: PutEnv, present: bool)
    ensures var length, limit := ContentLength(h), SpoolLimit(budget, h);
            PutStores(budget, h, source, fault, first, accepted, env, present) <==>
              && (budget.Some? ==> Admitted(budget.value, length, env.freeBytes)
                                   && |source.Content()| <= length.value as int)
              && !env.mkdirFails && !env.createBodyFails
              && !source.fails && !Trips(fault, first, source.chunks)
              && !CacheTrips(env.cacheFaultAt, limit, source.chunks)
              && !env.syncFails && accepted
              && !env.createMetaFails && !env.writeMetaFails && !env.commit.renameBody && !env.commit.setTime
              && (env.commit.renameMeta ==> !env.commit.renameMetaAgain && (present ==> !env.commit.removeMeta))
    ensures PutBypasses(budget, h, source, fault, first, accepted, env) <==>
              && budget.Some? && env.freeBytes.Some? && !source.fails && !Trips(fault, first, source.chunks)
              && (Admitted(budget.value, ContentLength(h), env.freeBytes) ==>
                    var length := ContentLength(h).value as int;
                    && |source.Content()| > length && !env.mkdirFails && !env.createBodyFails
                    && !CacheTrips(env.cacheFaultAt, length, source.chunks) && !env.syncFails && accepted)
  {
  }

  /** A whole put stores: under a budget it is admitted, and everything else works. */
  predicate PutStores(budget: Option<Ledger>, h: Header, source: Source, fault: Option<Fault>, first: nat,
                      accepted: bool, env: PutEnv, present: bool) {
    && (budget.Some? ==> Admitted(budget.value, ContentLength(h), env.freeBytes))
    && !env.mkdirFails && !env.createBodyFails
    && Stores(source, fault, first, SpoolLimit(budget, h), accepted, env, present)
  }

  /** A whole put passes the client everything and the cache nothing. */
  predicate PutBypasses(budget: Option<Ledger>, h: Header, source: Source, fault: Option<Fault>, first: nat,
                        accepted: bool, env: PutEnv) {
    && budget.Some? && env.freeBytes.Some?
    && if Admitted(budget.value, ContentLength(h), env.freeBytes) then
         !env.mkdirFails && !env.createBodyFails
         && PassesOver(source, fault, first, SpoolLimit(budget, h), accepted, env)
       else !source.fails && !Trips(fault, first, source.chunks)
  }

  /** A whole put passes the client everything, whatever becomes of the cache file. */
  predicate PutDelivers(budget: Option<Ledger>, h: Header, source: Source, fault: Option<Fault>, first: nat,
                        env: PutEnv) {
    if budget.None? || Admitted(budget.value, ContentLength(h), env.freeBytes) then
      !env.mkdirFails && !env.createBodyFails
      && Arrives(source, fault, first, env.cacheFaultAt, SpoolLimit(budget, h))
    else env.freeBytes.Some? && !Trips(fault, first, source.chunks)
  }

  /** What the cache file may take: the declared length under a shared budget, and no limit without. */
  function SpoolLimit(budget: Option<Ledger>, h: Header): int {
    if budget.None? || ContentLength(h).None? then -1 else ContentLength(h).value as int
  }

  /** No reservation is left behind, and the budget moved by what the store's counter moved. */
  ghost predicate Balanced(c: Controller, open: map<Reservation, nat>, cap: int, committed: int64, before: int,
                           after: int)
    reads c, c.open.Keys
  {
    c.Valid() && c.open == open && c.cap == cap && Charged(committed, c.committed, before, after)
  }

  predicate SameBypasses(a: Ledger, b: Ledger) {
    a.bypassObjects == b.bypassObjects && a.bypassBytes == b.bypassBytes
  }

  /** What a put that passes the cache over records: nothing if the free space is unknown; a
      response of unknown size, one that is not admitted, or one longer than it declared. */
  function PassesNoted(l: Ledger, length: Option<int64>, free: Option<int64>, r: PutResult, content: seq<Byte>)
    : Ledger
  {
    if free.None? then l
    else if length.None? then Storage.Bypassed(l, 0)
    else if !Admits(l, length.value, free.value) then Storage.Bypassed(l, length.value)
    else Noted(l, r, content)
  }

  lemma ReserveNotes(l: Ledger, length: Option<int64>, free: Option<int64>, r: PutResult, content: seq<Byte>,
                     after: Ledger)
    requires length.Some? && free.Some?
    requires if Admits(l, length.value, free.value)
             then SameBypasses(after, Noted(Reserved(l, length.value, free.value), r, content)) == true
             else after == Reserved(l, length.value, free.value)
    ensures SameBypasses(after, PassesNoted(l, length, free, r, content)) == true
  {
  }

  /** The ledger a put leaves apart from its settlement: an overflow is recorded as a bypass. */
  function Noted(l: Ledger, r: PutResult, content: seq<Byte>): Ledger {
    if r.Bypassed? then Storage.Bypassed(l, Wrap(|content|)) else l
  }

  lemma EnterPublish(before: StoreState, now: StoreState, job: PutJob, env: PutEnv, body: seq<Byte>)
    requires Spoolable(before, job, env, body)
    requires now == Spooled(before, job.BodyFile(), body, env.now)
    ensures PreviousOf(Prepared(now, job, env.now).fs, job.key) == PreviousOf(before.fs, job.key)
  {
    SpooledIsReady(before, job, body, env.now);
  }

  /** What a put needs of the store before it spools. */
  ghost predicate Spoolable(st: StoreState, job: PutJob, env: PutEnv, body: seq<Byte>) {
    && Wf(st.fs) && FreshSuffixes(st, job.key, job.bodySuffix, job.metaSuffix)
    && !env.commit.refused && !env.createMetaFails
    && job.bodySuffix == env.bodySuffix && job.metaSuffix == env.metaSuffix && job.meta.storedAt == env.now
    && job.meta.bodyFile == GenerationName(job.key, job.bodySuffix) && job.meta.contentBytes == |body|
  }

  /** The state a put ends in that gave up before. */
  lemma AbandonedEnds(before: StoreState, after: StoreState, key: Key, env: PutEnv, cached: seq<Byte>, entry: Entry)
    requires Wf(before.fs) && FreshSuffixes(before, key, env.bodySuffix, env.metaSuffix)
    requires after == Forgotten(Spooled(before, BodyTemp(env.bodySuffix), cached, env.now),
                                BodyTemp(env.bodySuffix), env.bodyUnlinkFails)
    ensures PutEnds(before, after, key, entry, env, Rejected(false))
    ensures PutEnds(before, after, key, entry, env, PutResult.Bypassed)
  {
    AbandonedChain(before, env.bodySuffix, cached, env.now, env.bodyUnlinkFails);
    NothingStored(before, after, key, entry);
  }

  lemma StoredIsDated(before: StoreState, after: StoreState, job: PutJob, body: seq<Byte>, env: PutEnv, ok: bool)
    requires Spoolable(before, job, env, body)
    requires var ready := Prepared(Spooled(before, job.BodyFile(), body, env.now), job, env.now);
             && ok == CommitOk(ready.fs, job, env.commit)
             && after == Closed(ready, job, env.commit, env.metaUnlinkFails, env.bodyUnlinkFails)
    ensures ok ==> DatedAt(after.fs, Generation(job.key, env.bodySuffix), job.meta.storedAt)
  {
    if ok {
      var ready := Prepared(Spooled(before, job.BodyFile(), body, env.now), job, env.now);
      SpooledIsReady(before, job, body, env.now);
      PutDatesBody(ready, job, body, env.commit, env.metaUnlinkFails, env.bodyUnlinkFails);
    }
  }

  /** The state a put ends in once it reached the metadata stage. */
  lemma ClosePut(before: StoreState, after: StoreState, job: PutJob, body: seq<Byte>, env: PutEnv, ok: bool,
                 r: PutResult)
    requires Spoolable(before, job, env, body)
    requires var ready := Prepared(Spooled(before, job.BodyFile(), body, env.now), job, env.now);
             && ok == (!env.writeMetaFails && CommitOk(ready.fs, job, env.commit))
             && after == (if env.writeMetaFails
                          then Forgotten(Forgotten(ready, job.Meta(), env.metaUnlinkFails), job.BodyFile(),
                                         env.bodyUnlinkFails)
                          else Closed(ready, job, env.commit, env.metaUnlinkFails, env.bodyUnlinkFails))
    requires r == if ok then Stored else Rejected(!env.writeMetaFails)
    ensures PutEnds(before, after, job.key, Entry(job.meta, body), env, r)
  {
    if env.writeMetaFails {
      UnwrittenMetadataChain(before, job, body, env.now, env.metaUnlinkFails, env.bodyUnlinkFails);
      UnwrittenMetadataNames(before, job, body, env.now, env.metaUnlinkFails, env.bodyUnlinkFails);
      NothingStored(before, after, job.key, Entry(job.meta, body));
    } else {
      PutChain(before, job, body, env.now, env.commit, env.metaUnlinkFails, env.bodyUnlinkFails);
      PutForgetsItsNames(before, job, body, env.now, env.commit, env.metaUnlinkFails, env.bodyUnlinkFails);
      PutBytes(before, job, body, env.now, env.commit, env.metaUnlinkFails, env.bodyUnlinkFails);
      StoredIsDated(before, after, job, body, env, ok);
      if !env.metaUnlinkFails && !env.bodyUnlinkFails {
        PutLeavesNoTemps(before, job, body, env.now, env.commit);
      }
    }
  }
}
