/** The directory of one cache store: names lead to inodes, inodes hold contents.
    Every syscall the store issues is one Action, so a crash is a prefix of a list of actions. */
module FileSystem {

  import opened Basics

  type Key = string

  /** Names relative to the store's root. A store key stands for its SHA-256 hash. */
  datatype Path =
    | MetaFile(key: Key)
    | LegacyBody(key: Key)
    | Generation(key: Key, suffix: string)
    | BodyTemp(suffix: string)
    | MetaTemp(suffix: string)
  {
    predicate IsTemp() { BodyTemp? || MetaTemp? }
    predicate IsBody() { LegacyBody? || Generation? }
  }

  /** A stored time of 0 is Go's zero time. */
  datatype Metadata = Metadata(
    status: int, header: Header, storedAt: int, contentBytes: int, contentDigest: string, bodyFile: string)

  /** Json is a metadata file that decodes; Bytes at a metadata name is one that does not. */
  datatype Content = Bytes(bytes: seq<Byte>) | Json(meta: Metadata)

  datatype File = File(content: Content, mtime: int)

  datatype FS = FS(names: map<Path, nat>, files: map<nat, File>, next: nat)

  ghost predicate Wf(fs: FS) {
    && (forall p :: p in fs.names ==> fs.names[p] in fs.files)
    && (forall p, q :: p in fs.names && q in fs.names && fs.names[p] == fs.names[q] ==> p == q)
    && (forall i :: i in fs.files ==> i < fs.next)
    && (forall p :: p in fs.names && p.IsBody() ==> fs.files[fs.names[p]].content.Bytes?)
    && (forall p :: p in fs.names && p.BodyTemp? ==> fs.files[fs.names[p]].content.Bytes?)
  }

  function At(fs: FS, p: Path): Option<Content> {
    if p in fs.names && fs.names[p] in fs.files then Some(fs.files[fs.names[p]].content) else None
  }

  function MtimeAt(fs: FS, p: Path): int {
    if p in fs.names && fs.names[p] in fs.files then fs.files[fs.names[p]].mtime else 0
  }

  // ---------------------------------------------------------------- entries

  const BODY_INFIX := ".body."

  function GenerationName(key: Key, suffix: string): string { key + BODY_INFIX + suffix }

  /** bodyPathForEntry: the empty name is the legacy body; any other name must be a plain
      file name that starts with the entry's own hash and ".body.". */
  function BodyPath(key: Key, m: Metadata): Option<Path> {
    if m.bodyFile == "" then Some(LegacyBody(key))
    else if '/' !in m.bodyFile && key + BODY_INFIX <= m.bodyFile
    then Some(Generation(key, m.bodyFile[|key + BODY_INFIX|..]))
    else None
  }

  lemma GenerationRoundTrip(key: Key, suffix: string, m: Metadata)
    requires m.bodyFile == GenerationName(key, suffix) && '/' !in key && '/' !in suffix
    ensures BodyPath(key, m) == Some(Generation(key, suffix))
  {
    var p := key + BODY_INFIX;
    assert m.bodyFile == p + suffix;
    assert m.bodyFile[|p|..] == suffix;
    assert '/' !in BODY_INFIX;
  }

  datatype Entry = Entry(meta: Metadata, body: seq<Byte>)

  /** The complete entry of a key: metadata that decodes, names a body of its own, and
      whose recorded length is the length of that body. */
  function Get(fs: FS, k: Key): Option<Entry> {
    match At(fs, MetaFile(k))
    case Some(Json(m)) =>
      (match BodyPath(k, m)
       case Some(p) =>
         (match At(fs, p)
          case Some(Bytes(b)) => if |b| == m.contentBytes then Some(Entry(m, b)) else None
          case _ => None)
       case None => None)
    case _ => None
  }

  /** What the store serves: the plain map the cache implements. */
  ghost function View(fs: FS): map<Key, Entry> {
    map p | p in fs.names && p.MetaFile? && Get(fs, p.key).Some? :: p.key := Get(fs, p.key).value
  }

  lemma ViewIsGet(fs: FS, k: Key)
    ensures k in View(fs) <==> Get(fs, k).Some?
    ensures k in View(fs) ==> View(fs)[k] == Get(fs, k).value
  {
    if Get(fs, k).Some? {
      assert MetaFile(k) in fs.names;
    }
  }

  lemma ViewFromGet(fs: FS, v: map<Key, Entry>)
    requires forall k :: Get(fs, k) == (if k in v then Some(v[k]) else None)
    ensures View(fs) == v
  {
    forall k
      ensures k in View(fs) <==> k in v
      ensures k in v ==> View(fs)[k] == v[k]
    {
      ViewIsGet(fs, k);
    }
  }

  /** A view depends on the contents behind the permanent names only. */
  lemma SameView(a: FS, b: FS)
    requires forall p: Path :: !p.IsTemp() ==> At(a, p) == At(b, p)
    ensures View(a) == View(b)
  {
    forall k
      ensures Get(b, k) == (if k in View(a) then Some(View(a)[k]) else None)
    {
      ViewIsGet(a, k);
    }
    ViewFromGet(b, View(a));
  }

  /** If permanent contents differ only under one key's metadata and bodies, so do the views. */
  lemma OtherKeysKeep(a: FS, b: FS, k: Key)
    requires forall p: Path :: !p.IsTemp() && p.key != k ==> At(a, p) == At(b, p)
    ensures View(b) == match Get(b, k) case Some(e) => View(a)[k := e] case None => View(a) - {k}
  {
    var v := match Get(b, k) case Some(e) => View(a)[k := e] case None => View(a) - {k};
    forall j
      ensures Get(b, j) == (if j in v then Some(v[j]) else None)
    {
      ViewIsGet(a, j);
    }
    ViewFromGet(b, v);
  }

  // ---------------------------------------------------------------- actions

  datatype Action =
    | Create(path: Path, time: int)
    | Append(path: Path, bytes: seq<Byte>, time: int)
    | Encode(path: Path, meta: Metadata, time: int)
    | Rename(from: Path, to: Path)
    | Unlink(path: Path)
    | Chtimes(path: Path, time: int)

  function SetFile(fs: FS, p: Path, f: File): FS
    requires p in fs.names
  {
    fs.(files := fs.files[fs.names[p] := f])
  }

  /** One successful syscall; a syscall whose path is missing changes nothing. */
  function Do(fs: FS, a: Action): FS {
    match a
    case Create(p, t) =>
      FS(fs.names[p := fs.next], fs.files[fs.next := File(Bytes([]), t)], fs.next + 1)
    case Append(p, b, t) =>
      if At(fs, p).Some? && At(fs, p).value.Bytes?
      then SetFile(fs, p, File(Bytes(At(fs, p).value.bytes + b), t)) else fs
    case Encode(p, m, t) =>
      if p in fs.names then SetFile(fs, p, File(Json(m), t)) else fs
    case Rename(p, q) =>
      if p in fs.names && p != q then fs.(names := (fs.names - {p})[q := fs.names[p]]) else fs
    case Unlink(p) => fs.(names := fs.names - {p})
    case Chtimes(p, t) =>
      if p in fs.names && fs.names[p] in fs.files
      then SetFile(fs, p, fs.files[fs.names[p]].(mtime := t)) else fs
  }

  function Run(fs: FS, acts: seq<Action>): FS
    decreases acts
  {
    if acts == [] then fs else Run(Do(fs, acts[0]), acts[1..])
  }

  lemma {:induction false} RunConcat(fs: FS, a: seq<Action>, b: seq<Action>)
    ensures Run(fs, a + b) == Run(Run(fs, a), b)
    decreases a
  {
    if a == [] {
      assert a + b == b;
    } else {
      assert (a + b)[1..] == a[1..] + b;
      RunConcat(Do(fs, a[0]), a[1..], b);
    }
  }

  /** The store's own discipline: only temporary files are created or written, a rename
      publishes a temporary file under a permanent name. */
  predicate Legal(fs: FS, a: Action) {
    match a
    case Create(p, _) => p.IsTemp() && p !in fs.names
    case Append(p, _, _) => p.BodyTemp?
    case Encode(p, _, _) => p.MetaTemp?
    case Rename(p, q) => (p.BodyTemp? && q.Generation?) || (p.MetaTemp? && q.MetaFile?)
    case Unlink(_) => true
    case Chtimes(p, _) => p.IsBody()
  }

  predicate LegalRun(fs: FS, acts: seq<Action>)
    decreases acts
  {
    acts == [] || (Legal(fs, acts[0]) && LegalRun(Do(fs, acts[0]), acts[1..]))
  }

  /** What an action does to the content behind one name. */
  function Effect(fs: FS, a: Action, p: Path): Option<Content> {
    match a
    case Create(q, _) => if p == q then Some(Bytes([])) else At(fs, p)
    case Append(q, b, _) =>
      if p == q && At(fs, q).Some? && At(fs, q).value.Bytes?
      then Some(Bytes(At(fs, q).value.bytes + b)) else At(fs, p)
    case Encode(q, m, _) => if p == q && q in fs.names then Some(Json(m)) else At(fs, p)
    case Rename(q, r) =>
      if q in fs.names then (if p == r then At(fs, q) else if p == q then None else At(fs, p))
      else At(fs, p)
    case Unlink(q) => if p == q then None else At(fs, p)
    case Chtimes(_, _) => At(fs, p)
  }

  lemma SetFileEffect(fs: FS, p: Path, f: File)
    requires Wf(fs) && p in fs.names
    requires p.IsBody() || p.BodyTemp? ==> f.content.Bytes?
    ensures Wf(SetFile(fs, p, f))
    ensures forall q :: At(SetFile(fs, p, f), q) == if q == p then Some(f.content) else At(fs, q)
  {
  }

  lemma CreateEffect(fs: FS, p: Path, t: int)
    requires Wf(fs) && Legal(fs, Create(p, t))
    ensures Wf(Do(fs, Create(p, t)))
    ensures forall q :: At(Do(fs, Create(p, t)), q) == Effect(fs, Create(p, t), q)
  {
  }

  lemma RenameEffect(fs: FS, p: Path, r: Path)
    requires Wf(fs) && Legal(fs, Rename(p, r))
    ensures Wf(Do(fs, Rename(p, r)))
    ensures forall q :: At(Do(fs, Rename(p, r)), q) == Effect(fs, Rename(p, r), q)
  {
  }

  /** Because no inode has two names, every action touches exactly the names it mentions. */
  lemma DoEffect(fs: FS, a: Action)
    requires Wf(fs) && Legal(fs, a)
    ensures Wf(Do(fs, a))
    ensures forall p :: At(Do(fs, a), p) == Effect(fs, a, p)
  {
    match a
    case Create(p, t) => CreateEffect(fs, p, t);
    case Append(p, b, t) =>
      if At(fs, p).Some? && At(fs, p).value.Bytes? {
        SetFileEffect(fs, p, File(Bytes(At(fs, p).value.bytes + b), t));
      }
    case Encode(p, m, t) =>
      if p in fs.names { SetFileEffect(fs, p, File(Json(m), t)); }
    case Rename(p, q) => RenameEffect(fs, p, q);
    case Unlink(p) =>
    case Chtimes(p, t) =>
      if p in fs.names { SetFileEffect(fs, p, fs.files[fs.names[p]].(mtime := t)); }
  }

  /** What an action does to the time behind one name; a missing file has none. */
  function Dating(fs: FS, a: Action, p: Path): int {
    match a
    case Create(q, t) => if p == q then t else MtimeAt(fs, p)
    case Append(q, _, t) =>
      if p == q && At(fs, q).Some? && At(fs, q).value.Bytes? then t else MtimeAt(fs, p)
    case Encode(q, _, t) => if p == q && q in fs.names then t else MtimeAt(fs, p)
    case Rename(q, r) =>
      if q !in fs.names then MtimeAt(fs, p)
      else if p == r then MtimeAt(fs, q) else if p == q then 0 else MtimeAt(fs, p)
    case Unlink(q) => if p == q then 0 else MtimeAt(fs, p)
    case Chtimes(q, t) => if p == q && q in fs.names then t else MtimeAt(fs, p)
  }

  /** And it dates exactly the file it works on; a rename takes its time along. */
  lemma DoDates(fs: FS, a: Action)
    requires Wf(fs) && Legal(fs, a)
    ensures forall p :: MtimeAt(Do(fs, a), p) == Dating(fs, a, p)
  {
  }

  /** Actions that neither move, remove nor date the file behind p. */
  predicate LeavesAlone(a: Action, p: Path) {
    match a
    case Rename(q, r) => q != p && r != p
    case Unlink(q) => q != p
    case Chtimes(q, _) => q != p
    case _ => false
  }

  lemma {:induction false} RunLeavesAlone(fs: FS, acts: seq<Action>, p: Path)
    requires Wf(fs) && LegalRun(fs, acts) && forall i :: 0 <= i < |acts| ==> LeavesAlone(acts[i], p)
    ensures MtimeAt(Run(fs, acts), p) == MtimeAt(fs, p)
    decreases acts
  {
    if acts != [] {
      DoEffect(fs, acts[0]);
      DoDates(fs, acts[0]);
      RunLeavesAlone(Do(fs, acts[0]), acts[1..], p);
    }
  }

  lemma {:induction false} RunWf(fs: FS, acts: seq<Action>)
    requires Wf(fs) && LegalRun(fs, acts)
    ensures Wf(Run(fs, acts))
    decreases acts
  {
    if acts != [] {
      DoEffect(fs, acts[0]);
      RunWf(Do(fs, acts[0]), acts[1..]);
    }
  }

  predicate TempAction(a: Action) {
    a.Create? || a.Append? || a.Encode? || (a.Unlink? && a.path.IsTemp())
  }

  /** Working on temporary files is invisible to readers. */
  lemma TempActionKeepsView(fs: FS, a: Action)
    requires Wf(fs) && Legal(fs, a) && TempAction(a)
    ensures View(Do(fs, a)) == View(fs)
  {
    DoEffect(fs, a);
    SameView(fs, Do(fs, a));
  }

  // ---------------------------------------------------------------- open handles

  /** An inode no temporary name leads to: a committed body, or one that was unlinked while open. */
  ghost predicate Sealed(fs: FS, ino: nat) {
    ino in fs.files && forall p :: p in fs.names && p.IsTemp() ==> fs.names[p] != ino
  }

  lemma SealedStep(fs: FS, a: Action, ino: nat)
    requires Wf(fs) && Legal(fs, a) && Sealed(fs, ino)
    ensures Sealed(Do(fs, a), ino)
    ensures Do(fs, a).files[ino].content == fs.files[ino].content
  {
  }

  /** Committed bodies are never written again: a reader that opened one keeps reading the
      original bytes through every later run of puts, collections and cleanups. */
  lemma {:induction false} OpenHandleIsStable(fs: FS, acts: seq<Action>, ino: nat)
    requires Wf(fs) && LegalRun(fs, acts) && Sealed(fs, ino)
    ensures Sealed(Run(fs, acts), ino)
    ensures Run(fs, acts).files[ino].content == fs.files[ino].content
    decreases acts
  {
    if acts != [] {
      SealedStep(fs, acts[0], ino);
      DoEffect(fs, acts[0]);
      OpenHandleIsStable(Do(fs, acts[0]), acts[1..], ino);
    }
  }
}
