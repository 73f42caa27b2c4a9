/** PyPI files: the expected digest is part of the cache key, so whatever is stored under a key
    with a digest hashes to it, and so does whatever is served from there. */
module PypiFiles {
  import opened Basics
  import opened FileSystem
  import opened StoreSpec
  import opened PutSpec
  import opened Store
  import opened Stream
  import opened Digest
  import opened CacheKeys
  import opened OciProxy
  import HttpPolicy

  const FILE_KIND := "file"

  /** The parts of a key: a URL, a kind and a header value hold no newline. */
  predicate OneLine(s: string) { '\n' !in s }

  /** The body, if an entry, of every file key hashes to the digest in the key. */
  ghost predicate KeyHolds(v: map<Key, Entry>, hash: Hash, name: string, target: string, accept: string, sha: string) {
    var key := FileKey(name, FILE_KIND, target, accept, sha);
    OneLine(target) && OneLine(accept) && sha != "" && key in v ==> EncodeHex(hash(v[key].body)) == sha
  }

  ghost predicate FilesHold(v: map<Key, Entry>, hash: Hash, name: string) {
    forall target, accept, sha :: KeyHolds(v, hash, name, target, accept, sha)
  }

  /** Storing under one key says nothing about any other digest: keys are injective. */
  lemma PutKeepsFiles(before: StoreState, after: StoreState, name: string, kind: string, target: string, accept: string,
                      sha: string, entry: Entry, lost: bool, stored: bool, hash: Hash)
    requires FilesHold(View(before.fs), hash, name) && OneLine(kind) && OneLine(target) && OneLine(accept)
    requires PutOutcome(before, after, FileKey(name, kind, target, accept, sha), entry, lost, stored)
    requires stored && kind == FILE_KIND && sha != "" ==> EncodeHex(hash(entry.body)) == sha
    ensures FilesHold(View(after.fs), hash, name)
  {
    forall t, a, s
      ensures KeyHolds(View(after.fs), hash, name, t, a, s)
    {
      assert KeyHolds(View(before.fs), hash, name, t, a, s);
      if stored && OneLine(t) && OneLine(a)
        && FileKey(name, FILE_KIND, t, a, s) == FileKey(name, kind, target, accept, sha) {
        FileKeyIsInjective(name, FILE_KIND, t, a, s, kind, target, accept, sha);
      }
    }
  }

  lemma PutEndsFiles(before: StoreState, after: StoreState, name: string, target: string, accept: string,
                     sha: string, entry: Entry, env: PutEnv, r: PutResult, hash: Hash)
    requires FilesHold(View(before.fs), hash, name) && OneLine(target) && OneLine(accept)
    requires PutEnds(before, after, FileKey(name, FILE_KIND, target, accept, sha), entry, env, r)
    requires r.Stored? && sha != "" ==> EncodeHex(hash(entry.body)) == sha
    ensures FilesHold(View(after.fs), hash, name)
  {
    PutKeepsFiles(before, after, name, FILE_KIND, target, accept, sha, entry, Lost(r, env), r.Stored?, hash);
  }

  /** The headers a file is cached with: its encoding was undone on the way. */
  function FileHeaders(kept: Header): Header {
    HttpPolicy.CacheMetadataHeaders(kept - {HttpPolicy.Canonical("Content-Encoding")})
  }

  class FileProxy {
    const store: Store
    const name: string
    const ttl: int
    const forwardAuthorization: bool
    const hash: Hash

    constructor (store: Store, name: string, ttl: int, forwardAuthorization: bool, hash: Hash)
      ensures this.store == store && this.name == name && this.ttl == ttl && this.hash == hash
      ensures this.forwardAuthorization == forwardAuthorization
    {
      this.store, this.name, this.ttl, this.hash := store, name, ttl, hash;
      this.forwardAuthorization := forwardAuthorization;
    }

    ghost predicate Verified()
      reads store
    {
      FilesHold(View(store.fs), hash, name)
    }

    /** streamResponse of a file: with an expected digest, only bytes that hash to it are stored. */
    method StreamFile(target: string, accept: string, sha: string, header: Header, source: Source, client: Client,
                      env: PutEnv)
      returns (r: PutResult)
      requires ReadyToPut(store, FileKey(name, FILE_KIND, target, accept, sha), env) && Verified()
      requires OneLine(target) && OneLine(accept)
      modifies store, client, if store.controller == null then {} else {store.controller}
      ensures Verified()
      ensures r.Stored? <==>
                PutStores(old(store.Budget()), header, source, client.fault, old(client.writes),
                          sha != "" ==> EncodeHex(hash(source.Content())) == sha, env,
                          MetaFile(FileKey(name, FILE_KIND, target, accept, sha)) in old(store.fs).names)
      ensures PutDelivers(old(store.Budget()), header, source, client.fault, old(client.writes), env) ==>
                client.received == old(client.received) + source.Content()
      ensures !r.Rejected? ==> client.received == old(client.received) + source.Content()
      ensures r.Stored? && sha != "" ==> EncodeHex(hash(source.Content())) == sha
      ensures r.Stored? ==>
                var key := FileKey(name, FILE_KIND, target, accept, sha);
                && key in View(store.fs) && View(store.fs)[key].body == source.Content()
                && View(store.fs)[key].meta.contentDigest == if sha == "" then "" else "sha256:" + sha
    {
      var hash' := hash;
      var verify := if sha == "" then None else Some((body: seq<Byte>) => EncodeHex(hash'(body)) == sha);
      var digest := if sha == "" then "" else "sha256:" + sha;
      var key := FileKey(name, FILE_KIND, target, accept, sha);
      ghost var before := store.State();
      var metadata := Metadata(OK, header, 0, 0, digest, "");
      assert Accepts(verify, source.Content()) <==> (sha != "" ==> EncodeHex(hash(source.Content())) == sha);
      r := store.PutStreamVerified(key, metadata, source, client, verify, env);
      PutEndsFiles(before, store.State(), name, target, accept, sha,
                   StoredEntry(metadata, key, env, source.Content()), env, r, hash);
    }

    /** serveFile's own test, before it consults the cache. */
    predicate Cacheable(request: Request) {
      && !request.range && !HttpPolicy.RequestBypassesCache(request.header)
      && (!forwardAuthorization || FirstValue(request.header, "Authorization") == "")
    }

    /** One request for a file: looked up on both sides of the key's lock, then fetched. It is a hit
        exactly if the request may be answered from the cache and a fresh, readable entry is there;
        whatever the client gets from the cache hashes to the digest it asked for; exactly a
        response that may be stored is put to the store; the client of a GET gets the upstream's
        body otherwise; and a HEAD request is sent no body. */
    method ServeFile(request: Request, target: string, accept: string, sha: string, upstream: Upstream, now: int,
                     io: ReadFaults, touchFails: bool, client: Client, env: PutEnv)
      returns (hit: Option<Entry>, put: Option<PutResult>, ghost kept: Header)
      requires ReadyToPut(store, FileKey(name, FILE_KIND, target, accept, sha), env) && Verified()
      requires OneLine(target) && OneLine(accept)
      modifies store, client, if store.controller == null then {} else {store.controller}
      ensures Verified() && (hit.None? ==> HttpPolicy.Filtered(upstream.header, kept))
      ensures var key := FileKey(name, FILE_KIND, target, accept, sha);
              var authorization := HttpPolicy.Values(request.header, "Authorization");
              var cacheable := !request.range && !HttpPolicy.RequestBypassesCache(request.header)
                               && (forwardAuthorization ==> authorization == [] || authorization[0] == "");
              && (hit.Some? <==> cacheable && MayHit(View(old(store.fs)), key, ttl, now, io))
              && (hit.Some? ==> hit.value == View(old(store.fs))[key])
              && (put.Some? <==>
                    && cacheable && hit.None? && request.isGet && upstream.status == 200
                    && HttpPolicy.ResponseAllowsStorage(request.header, upstream.header, {"Accept-Encoding"}))
      ensures put.Some? ==>
                (put.value.Stored? <==>
                   PutStores(old(store.Budget()), FileHeaders(kept), upstream.source, client.fault, old(client.writes),
                             sha != "" ==> EncodeHex(hash(upstream.source.Content())) == sha, env,
                             MetaFile(FileKey(name, FILE_KIND, target, accept, sha)) in old(store.fs).names))
      ensures put == Some(Stored) ==>
                var key := FileKey(name, FILE_KIND, target, accept, sha);
                && key in View(store.fs) && View(store.fs)[key].body == upstream.source.Content()
                && View(store.fs)[key].meta.contentDigest == (if sha == "" then "" else "sha256:" + sha)
                && (sha != "" ==> EncodeHex(hash(upstream.source.Content())) == sha)
      ensures put.None? ==> View(store.fs) == View(old(store.fs))
      ensures hit.Some? && sha != "" ==> EncodeHex(hash(hit.value.body)) == sha
      ensures hit.Some? && request.isGet && client.fault.None? ==>
                client.received == old(client.received) + hit.value.body
      ensures hit.None? && request.isGet && client.fault.None? && (put.Some? ==> !put.value.Rejected?) ==>
                client.received == old(client.received) + upstream.source.Content()
      ensures !request.isGet ==> client.received == old(client.received)
    {
      hit, put, kept := None, None, map[];
      var cacheable := Cacheable(request);
      if cacheable {
        hit := LookupTwice(FileKey(name, FILE_KIND, target, accept, sha), target, accept, sha, now, io, touchFails,
                           env);
      }
      if hit.Some? {
        if request.isGet {
          var n, failed := client.Write(hit.value.body);
          assert hit.value.body[..|hit.value.body|] == hit.value.body;
        }
      } else {
        put, kept := ServeFileMiss(request, target, accept, sha, cacheable, upstream, client, env);
      }
    }

    /** A file that is not in the cache. */
    method ServeFileMiss(request: Request, target: string, accept: string, sha: string, cacheable: bool,
                         upstream: Upstream, client: Client, env: PutEnv)
      returns (put: Option<PutResult>, ghost kept: Header)
      requires ReadyToPut(store, FileKey(name, FILE_KIND, target, accept, sha), env) && Verified()
      requires OneLine(target) && OneLine(accept)
      modifies store, client, if store.controller == null then {} else {store.controller}
      ensures Verified() && HttpPolicy.Filtered(upstream.header, kept)
      ensures put.Some? <==>
                && cacheable && request.isGet && upstream.status == 200
                && HttpPolicy.ResponseAllowsStorage(request.header, upstream.header, {"Accept-Encoding"})
      ensures put.Some? ==>
                (put.value.Stored? <==>
                   PutStores(old(store.Budget()), FileHeaders(kept), upstream.source, client.fault, old(client.writes),
                             sha != "" ==> EncodeHex(hash(upstream.source.Content())) == sha, env,
                             MetaFile(FileKey(name, FILE_KIND, target, accept, sha)) in old(store.fs).names))
      ensures put == Some(Stored) ==>
                var key := FileKey(name, FILE_KIND, target, accept, sha);
                && key in View(store.fs) && View(store.fs)[key].body == upstream.source.Content()
                && View(store.fs)[key].meta.contentDigest == (if sha == "" then "" else "sha256:" + sha)
                && (sha != "" ==> EncodeHex(hash(upstream.source.Content())) == sha)
      ensures put.None? ==> View(store.fs) == View(old(store.fs))
      ensures request.isGet && client.fault.None? && (put.Some? ==> !put.value.Rejected?) ==>
                client.received == old(client.received) + upstream.source.Content()
      ensures put.Some? && PutDelivers(old(store.Budget()), FileHeaders(kept), upstream.source, client.fault,
                                       old(client.writes), env) ==>
                client.received == old(client.received) + upstream.source.Content()
      ensures !request.isGet ==> client.received == old(client.received)
    {
      put := None;
      var headers := HttpPolicy.ResponseHeaders(upstream.header);
      kept := headers;
      var storable := cacheable && request.isGet && upstream.status == OK
        && HttpPolicy.ResponseAllowsStorage(request.header, upstream.header, {"Accept-Encoding"});
      if !request.isGet {
        return;
      }
      if storable {
        var r := StreamFile(target, accept, sha, FileHeaders(headers), upstream.source, client, env);
        put := Some(r);
      } else {
        NoFaultNoTrip(client.writes, 0, upstream.source.chunks);
        var sent := CopyPlain(upstream.source, client);
      }
    }

    method LookupTwice(key: Key, target: string, accept: string, sha: string, now: int, io: ReadFaults,
                       touchFails: bool, ghost env: PutEnv) returns (hit: Option<Entry>)
      requires key == FileKey(name, FILE_KIND, target, accept, sha) && OneLine(target) && OneLine(accept)
      requires ReadyToPut(store, key, env) && Verified()
      modifies store`fs
      ensures ReadyToPut(store, key, env) && Verified() && View(store.fs) == View(old(store.fs))
      ensures store.fs.names == old(store.fs).names
      ensures hit == if MayHit(View(old(store.fs)), key, ttl, now, io) then Some(View(old(store.fs))[key]) else None
      ensures hit.Some? && sha != "" ==> EncodeHex(hash(hit.value.body)) == sha
    {
      hit := LookupFile(key, target, accept, sha, now, io, touchFails, env);
      if hit.None? {
        hit := LookupFile(key, target, accept, sha, now, io, touchFails, env);
      }
    }

    method LookupFile(key: Key, target: string, accept: string, sha: string, now: int, io: ReadFaults, touchFails: bool,
                      ghost env: PutEnv) returns (hit: Option<Entry>)
      requires key == FileKey(name, FILE_KIND, target, accept, sha) && OneLine(target) && OneLine(accept)
      requires ReadyToPut(store, key, env) && Verified()
      modifies store`fs
      ensures ReadyToPut(store, key, env) && View(store.fs) == View(old(store.fs))
      ensures store.fs.names == old(store.fs).names
      ensures hit.Some? <==>
                && key in View(old(store.fs)) && now - View(old(store.fs))[key].meta.storedAt < ttl
                && !io.meta && !io.stat && !io.open
      ensures hit.Some? ==> key in View(store.fs) && hit.value == View(store.fs)[key]
      ensures hit.Some? && sha != "" ==> EncodeHex(hash(hit.value.body)) == sha
    {
      ViewIsGet(store.fs, key);
      ghost var before := store.State();
      var found := store.Lookup(key, ttl, now, io, touchFails);
      if found.Hit? && !touchFails {
        HitDates(before.fs, store.fs, key, found.entry, found.ino, now);
      }
      Touched(before, store.State(), key, now, env);
      if store.controller != null { StillCovers(store.controller, before, store.State()); }
      assert KeyHolds(View(store.fs), hash, name, target, accept, sha);
      hit := if found.Hit? then Some(found.entry) else None;
    }
  }
}
