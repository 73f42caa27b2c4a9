/** Digest integrity over every interleaving: what the proxies verify before a put prepares its
    metadata holds of every entry the store ever serves, crashes included. */
module Integrity {
  import opened Basics
  import opened FileSystem
  import opened StoreSpec
  import opened StoreMachine
  import opened StoreRuns
  import opened Digest
  import opened CacheKeys
  import opened OciProxy
  import opened PypiFiles

  /** Every OCI entry a lookup can ever return hashes to the digest recorded with it, if every put
      checked its body against its digest before it prepared its metadata. */
  lemma ServedOciEntriesAreVerified(fs: FS, drawn: set<string>, ls: seq<Label>, m: Machine, hash: Hash)
    requires Wf(fs) && PublishedOk(fs, drawn) && Runs(Boot(fs, drawn), ls, m)
    requires AllVerified(View(fs), hash)
    requires Vetted(Boot(fs, drawn), ls, (k, e) => EntryVerified(hash, e))
    ensures AllVerified(View(m.st.fs), hash)
  {
    var P := (k: Key, e: Entry) => EntryVerified(hash, e);
    VettedEntriesAreServed(fs, drawn, ls, m, P);
    forall k | k in View(m.st.fs)
      ensures EntryVerified(hash, View(m.st.fs)[k])
    {
      assert P(k, View(m.st.fs)[k]);
    }
  }

  /** The digest in a file key, for one way of reading the key. */
  predicate FileEntryHolds(hash: Hash, key: Key, e: Entry, name: string, target: string, accept: string, sha: string) {
    key == FileKey(name, FILE_KIND, target, accept, sha) && OneLine(target) && OneLine(accept) && sha != "" ==>
      EncodeHex(hash(e.body)) == sha
  }

  /** Every PyPI file entry keyed by a digest that a lookup can ever return hashes to it, if every
      put checked its body against the digest in its key before it prepared its metadata. */
  lemma ServedFilesAreVerified(fs: FS, drawn: set<string>, ls: seq<Label>, m: Machine, hash: Hash,
                               name: string, target: string, accept: string, sha: string)
    requires Wf(fs) && PublishedOk(fs, drawn) && Runs(Boot(fs, drawn), ls, m)
    requires KeyHolds(View(fs), hash, name, target, accept, sha)
    requires Vetted(Boot(fs, drawn), ls, (k, e) => FileEntryHolds(hash, k, e, name, target, accept, sha))
    ensures KeyHolds(View(m.st.fs), hash, name, target, accept, sha)
  {
    var P := (k: Key, e: Entry) => FileEntryHolds(hash, k, e, name, target, accept, sha);
    forall k | k in View(fs)
      ensures P(k, View(fs)[k])
    {
      assert FileEntryHolds(hash, k, View(fs)[k], name, target, accept, sha);
    }
    VettedEntriesAreServed(fs, drawn, ls, m, P);
    var key := FileKey(name, FILE_KIND, target, accept, sha);
    if key in View(m.st.fs) {
      assert P(key, View(m.st.fs)[key]);
    }
  }
}
