/** The OCI proxy: what is cached was checked against its digest, and what is served from the
    cache hashes to the digest the upstream reports for the same request. */
module OciProxy {
  import opened Basics
  import opened FileSystem
  import opened StoreSpec
  import opened PutSpec
  import opened Store
  import opened Stream
  import opened Digest
  import opened Text
  import opened Storage
  import HttpPolicy

  const MAX_MANIFEST_BYTES := 0x100_0000
  /** Ten years of 365 days, in nanoseconds. */
  const IMMUTABLE_TTL := 10 * 365 * 24 * 3_600_000_000_000
  const OK := 200

  // ---------------------------------------------------------------- routing

  datatype Kind = Manifest | Blob | Other

  datatype Resource = Resource(kind: Kind, digest: string, cacheable: bool)

  predicate OccursAt(s: string, part: string, j: nat) { j + |part| <= |s| && s[j..j + |part|] == part }

  /** strings.Index, with the length of s for "not found". */
  function Find(s: string, part: string): (i: nat)
    requires part != ""
    ensures i <= |s| && (i < |s| ==> OccursAt(s, part, i))
  {
    if |s| < |part| then |s| else if s[..|part|] == part then 0
    else
      var j := Find(s[1..], part);
      assert j < |s[1..]| ==> s[1..][j..j + |part|] == s[j + 1..j + 1 + |part|];
      j + 1
  }

  /** What it finds is the first occurrence, and it finds one if there is one. */
  lemma {:induction false} FindIsFirst(s: string, part: string)
    requires part != ""
    ensures forall j :: 0 <= j < |s| && OccursAt(s, part, j) ==> Find(s, part) <= j
  {
    if |s| >= |part| && s[..|part|] != part {
      FindIsFirst(s[1..], part);
      forall j | 0 <= j < |s| && OccursAt(s, part, j)
        ensures Find(s, part) <= j
      {
        if j > 0 {
          assert s[1..][j - 1..j - 1 + |part|] == s[j..j + |part|];
          assert OccursAt(s[1..], part, j - 1);
        }
      }
    }
  }

  /** What follows the first occurrence of a marker in a path. */
  function AfterMarker(path: string, marker: string): (r: Option<string>)
    requires marker != ""
    ensures r.Some? ==> EndsWith(path, r.value) && EndsWith(path, marker + r.value)
  {
    var i := Find(path, marker);
    if i < |path| then
      assert path[i..] == marker + path[i + |marker|..];
      Some(path[i + |marker|..])
    else None
  }

  function Classify(path: string): Resource {
    match AfterMarker(path, "/manifests/")
    case Some(reference) =>
      if DecodeSHA256(reference).Some? then Resource(Manifest, reference, true)
      else Resource(Manifest, "", reference != "")
    case None =>
      match AfterMarker(path, "/blobs/")
      case Some(digest) =>
        if DecodeSHA256(digest).Some? then Resource(Blob, digest, true) else Resource(Other, "", false)
      case None => Resource(Other, "", false)
  }

  lemma NothingDecodes()
    ensures DecodeSHA256("") == None
  {
  }

  /** A digest in a path is what the path ends with, and it decodes; a blob always has one; and
      only manifests are cached without one. */
  lemma ClassifyPromises(path: string)
    ensures var r := Classify(path);
            && (r.digest != "" ==> r.cacheable && DecodeSHA256(r.digest).Some? && EndsWith(path, r.digest))
            && (r.kind.Blob? ==> r.digest != "")
            && (r.kind.Other? ==> !r.cacheable)
  {
    NothingDecodes();
  }

  predicate Occurs(s: string, part: string) { exists j :: 0 <= j < |s| && OccursAt(s, part, j) }

  /** Splitting at a marker gives back what was put around it. */
  lemma MarkerSplits(before: string, marker: string, rest: string)
    requires marker != "" && forall j :: 0 <= j < |before| ==> !OccursAt(before + marker + rest, marker, j)
    ensures AfterMarker(before + marker + rest, marker) == Some(rest)
  {
    var path := before + marker + rest;
    FindIsFirst(path, marker);
    assert OccursAt(path, marker, |before|);
  }

  lemma MarkerMissing(path: string, marker: string)
    requires marker != "" && !Occurs(path, marker)
    ensures AfterMarker(path, marker) == None
  {
  }

  /** The routes: a manifest is cacheable under every tag and digest, a blob under a digest only;
      what a digest names lives ten years, what a tag names as long as the repository is told. */
  lemma ManifestRoute(before: string, reference: string, ttl: int)
    requires forall j :: 0 <= j < |before| ==> !OccursAt(before + "/manifests/" + reference, "/manifests/", j)
    ensures var r := Classify(before + "/manifests/" + reference);
            && r.kind.Manifest? && (r.cacheable <==> reference != "")
            && (DecodeSHA256(reference).Some? ==> r.digest == reference && Ttl(r, ttl) == 315_360_000_000_000_000)
            && (DecodeSHA256(reference).None? ==> r.digest == "" && Ttl(r, ttl) == ttl)
  {
    NothingDecodes();
    MarkerSplits(before, "/manifests/", reference);
  }

  lemma BlobRoute(before: string, digest: string, ttl: int)
    requires !Occurs(before + "/blobs/" + digest, "/manifests/")
    requires forall j :: 0 <= j < |before| ==> !OccursAt(before + "/blobs/" + digest, "/blobs/", j)
    ensures var r := Classify(before + "/blobs/" + digest);
            && (r.kind.Blob? <==> DecodeSHA256(digest).Some?) && (r.cacheable <==> DecodeSHA256(digest).Some?)
            && !r.kind.Manifest? && (r.kind.Blob? ==> r.digest == digest && Ttl(r, ttl) == 315_360_000_000_000_000)
  {
    MarkerMissing(before + "/blobs/" + digest, "/manifests/");
    MarkerSplits(before, "/blobs/", digest);
  }

  lemma OtherRoute(path: string)
    requires !Occurs(path, "/manifests/") && !Occurs(path, "/blobs/")
    ensures Classify(path) == Resource(Other, "", false)
  {
    MarkerMissing(path, "/manifests/");
    MarkerMissing(path, "/blobs/");
  }

  function Ttl(r: Resource, ttl: int): int { if r.kind.Blob? || r.digest != "" then IMMUTABLE_TTL else ttl }

  // ---------------------------------------------------------------- digests of entries

  type Hash = seq<Byte> -> seq<Byte>

  ghost predicate IsSha256(hash: Hash) { forall b :: |hash(b)| == SHA256_SIZE }

  predicate Matches(hash: Hash, body: seq<Byte>, digest: string) { DecodeSHA256(digest) == Some(hash(body)) }

  predicate EntryVerified(hash: Hash, e: Entry) { Matches(hash, e.body, e.meta.contentDigest) }

  /** Every entry of the store hashes to the digest recorded with it. */
  ghost predicate AllVerified(v: map<Key, Entry>, hash: Hash) {
    forall k :: k in v ==> EntryVerified(hash, v[k])
  }

  /** A put of a verified entry, and every way a put can fail, keep the store verified. */
  lemma PutKeepsVerified(before: StoreState, after: StoreState, key: Key, entry: Entry, lost: bool, stored: bool,
                         hash: Hash)
    requires PutOutcome(before, after, key, entry, lost, stored) && AllVerified(View(before.fs), hash)
    requires stored ==> EntryVerified(hash, entry)
    ensures AllVerified(View(after.fs), hash)
  {
  }

  lemma PutEndsVerified(before: StoreState, after: StoreState, key: Key, entry: Entry, env: PutEnv, r: PutResult,
                        hash: Hash)
    requires PutEnds(before, after, key, entry, env, r) && AllVerified(View(before.fs), hash)
    requires r.Stored? ==> EntryVerified(hash, entry)
    ensures AllVerified(View(after.fs), hash)
    ensures r.Stored? ==> key in View(after.fs) && View(after.fs)[key] == entry
  {
    PutKeepsVerified(before, after, key, entry, Lost(r, env), r.Stored?, hash);
  }

  /** What the upstream answers to a HEAD request: nothing, or a status and a content digest. */
  datatype Head = NoAnswer | Answer(status: int, digest: string)

  predicate Authorizes(h: Head, cachedDigest: string) {
    h.Answer? && 200 <= h.status < 300 && h.digest != "" && cachedDigest != "" && EqualFold(h.digest, cachedDigest)
  }

  /** An authorized body hashes to the digest the upstream reported; the one spelling that folds to
      the cached digest without decoding is a long s in place of an s. */
  lemma AuthorizedMatches(h: Head, e: Entry, hash: Hash)
    requires IsSha256(hash) && EntryVerified(hash, e) && Authorizes(h, e.meta.contentDigest)
    ensures Matches(hash, e.body, h.digest) <==> LONG_S !in h.digest
  {
    FoldedDigestDecodes(h.digest, e.meta.contentDigest, hash(e.body));
  }

  lemma LongSFolds(hex: string)
    ensures EqualFold([LONG_S] + "ha256:" + hex, "sha256:" + hex)
  {
    var cached, spelled := "sha256:" + hex, [LONG_S] + "ha256:" + hex;
    forall i | 0 <= i < |cached|
      ensures FoldChar(spelled[i]) == FoldChar(cached[i])
    {
      if i >= 7 { assert spelled[i] == hex[i - 7] == cached[i]; }
    }
  }

  /** Such a spelling exists, so the exception is real. */
  lemma LongSAuthorizes(hash: Hash, body: seq<Byte>)
    requires IsSha256(hash)
    ensures exists h: Head, cached: string ::
              Matches(hash, body, cached) && Authorizes(h, cached) && !Matches(hash, body, h.digest)
  {
    var hex := EncodeHex(hash(body));
    var cached, h := "sha256:" + hex, Answer(200, [LONG_S] + "ha256:" + hex);
    LowerOfDigest(hash(body));
    DecodeIsCanonical(cached, hash(body));
    LongSFolds(hex);
    FoldedDigestDecodes(h.digest, cached, hash(body));
    assert h.digest[0] == LONG_S;
    assert Matches(hash, body, cached) && Authorizes(h, cached) && !Matches(hash, body, h.digest);
  }

  lemma LowerOfDigest(digest: seq<Byte>)
    ensures ToLower("sha256:" + EncodeHex(digest)) == "sha256:" + EncodeHex(digest)
  {
    var hex := EncodeHex(digest);
    var d := "sha256:" + hex;
    DecodeOfEncode(digest);
    forall i | 0 <= i < |d|
      ensures LowerChar(d[i]) == d[i]
    {
      if i >= 7 { assert d[i] == hex[i - 7]; } else { assert d[i] == "sha256:"[i]; }
    }
    LowerIsFixed(d);
  }

  // ---------------------------------------------------------------- requests

  datatype Request = Request(path: string, isGet: bool, range: bool, header: Header)

  datatype Upstream = Upstream(status: int, header: Header, source: Source)

  datatype Outcome = Hit(entry: Entry, head: Head) | Cached(r: PutResult) | PassedThrough | Refused

  function FirstValue(h: Header, name: string): string {
    var vs := HttpPolicy.Values(h, name);
    if vs == [] then "" else vs[0]
  }

  /** The headers an entry is cached with: filtered, and with the digest it was checked against. */
  function CacheHeaders(kept: Header, digest: string): Header {
    HttpPolicy.CacheMetadataHeaders(kept[HttpPolicy.Canonical("Docker-Content-Digest") := [digest]])
  }

  /** Whatever the upstream sent, an entry's headers tell the digest the entry was checked against;
      the filters of the proxy and of the store both let that field through. */
  lemma CachedHeadersTellDigest(source: Header, kept: Header, digest: string)
    requires HttpPolicy.Filtered(source, kept)
    ensures var stored := HttpPolicy.CacheMetadataHeaders(CacheHeaders(kept, digest));
            && HttpPolicy.Values(stored, "Docker-Content-Digest") == [digest]
            && stored.Keys !! HttpPolicy.UNSTORED
  {
    var name := HttpPolicy.Canonical("Docker-Content-Digest");
    NameOfThatLengthIsKept("Docker-Content-Digest");
    HttpPolicy.SetFieldSurvives(source, kept, name, [digest]);
  }

  /** No field the filters drop has a name of that length. */
  lemma NameOfThatLengthIsKept(s: string)
    requires |s| == 21
    ensures var name := HttpPolicy.Canonical(s);
            HttpPolicy.Canonical(name) == name && name !in HttpPolicy.HOP_BY_HOP && name !in HttpPolicy.UNSTORED
  {
    HttpPolicy.CapitaliseLength(s, true);
    HttpPolicy.CanonicalTwice(s);
  }

  function ExpectedDigest(r: Resource, u: Upstream): string {
    if r.digest != "" then r.digest else FirstValue(u.header, "Docker-Content-Digest")
  }

  predicate MayStore(request: Request, r: Resource, cacheable: bool, u: Upstream) {
    && cacheable && request.isGet && u.status == OK
    && HttpPolicy.ResponseAllowsStorage(request.header, u.header, {"Accept", "Accept-Encoding"})
    && DecodeSHA256(ExpectedDigest(r, u)).Some? && !r.kind.Other?
  }

  lemma FlattenOne(body: seq<Byte>)
    ensures Flatten([body]) == body
  {
    assert [body][..0] == [];
  }

  /** headers.Set of the length; the field's name is brought to its canonical form. */
  function WithLength(h: Header, n: nat): Header { h[HttpPolicy.Canonical("Content-Length") := [Decimal(n)]] }

  /** The length a manifest is stored with is the one admission reads back. */
  lemma ManifestLengthIsKnown(header: Header, body: seq<Byte>)
    requires 0 < |body| <= MAX_MANIFEST_BYTES
    ensures ContentLength(WithLength(header, |body|)) == Some(|body| as int64)
  {
    ParseOfDecimal(|body|);
  }

  /** What a put of one key needs of the store: fresh suffixes and a budget that covers it. */
  ghost predicate ReadyToPut(store: Store, key: Key, env: PutEnv)
    reads store, if store.controller == null then {} else {store.controller} + store.controller.open.Keys
  {
    ReadyState(store.State(), key, env) && (store.controller != null ==> BudgetCovers(store.controller, store.State()))
  }

  ghost predicate ReadyState(st: StoreState, key: Key, env: PutEnv) {
    Wf(st.fs) && FreshSuffixes(st, key, env.bodySuffix, env.metaSuffix) && !env.commit.refused
  }

  ghost predicate BudgetCovers(c: Controller, st: StoreState)
    reads c, c.open.Keys
  {
    c.Valid() && Accounted(st, c)
  }

  /** The budget only looks at the counters. */
  lemma StillCovers(c: Controller, before: StoreState, after: StoreState)
    requires BudgetCovers(c, before) && ByteDrift(after) == ByteDrift(before) && after.bytes == before.bytes
    ensures BudgetCovers(c, after)
  {
  }

  lemma TouchKeepsFresh(st: StoreState, p: Path, now: int, key: Key, bodySuffix: string, metaSuffix: string)
    requires Wf(st.fs) && p.IsBody() && FreshSuffixes(st, key, bodySuffix, metaSuffix)
    ensures FreshSuffixes(st.(fs := Do(st.fs, Chtimes(p, now))), key, bodySuffix, metaSuffix)
    ensures View(Do(st.fs, Chtimes(p, now))) == View(st.fs)
  {
    DoEffect(st.fs, Chtimes(p, now));
    SameView(st.fs, Do(st.fs, Chtimes(p, now)));
    SamePrevious(st.fs, Do(st.fs, Chtimes(p, now)), key);
  }

  /** A complete entry that has not expired and can be read. */
  ghost predicate MayHit(v: map<Key, Entry>, key: Key, lifetime: int, now: int, io: ReadFaults) {
    key in v && now - v[key].meta.storedAt < lifetime && !io.meta && !io.stat && !io.open
  }

  class Proxy {
    const store: Store
    const ttl: int
    const hash: Hash

    constructor (store: Store, ttl: int, hash: Hash)
      ensures this.store == store && this.ttl == ttl && this.hash == hash
    {
      this.store, this.ttl, this.hash := store, ttl, hash;
    }

    ghost predicate Verified()
      reads store
    {
      AllVerified(View(store.fs), hash)
    }

    /** Streams a blob to the client through the store, which commits it only if it hashes to the
        expected digest. */
    method CacheBlob(key: Key, header: Header, digest: string, source: Source, client: Client, env: PutEnv)
      returns (r: PutResult)
      requires ReadyToPut(store, key, env) && Verified()
      modifies store, client, if store.controller == null then {} else {store.controller}
      ensures Verified()
      ensures r.Stored? <==>
                PutStores(old(store.Budget()), header, source, client.fault, old(client.writes),
                          DecodeSHA256(digest) == Some(hash(source.Content())), env,
                          MetaFile(key) in old(store.fs).names)
      ensures PutDelivers(old(store.Budget()), header, source, client.fault, old(client.writes), env) ==>
                client.received == old(client.received) + source.Content()
      ensures !r.Rejected? ==> client.received == old(client.received) + source.Content()
      ensures r.Stored? ==> DecodeSHA256(digest) == Some(hash(source.Content()))
      ensures r.Stored? ==>
                && key in View(store.fs) && View(store.fs)[key].body == source.Content()
                && View(store.fs)[key].meta.contentDigest == digest
    {
      var hash' := hash;
      var verify := (body: seq<Byte>) => Matches(hash', body, digest);
      assert Accepts(Some(verify), source.Content()) <==> DecodeSHA256(digest) == Some(hash(source.Content()));
      ghost var before := store.State();
      var metadata := Metadata(OK, header, 0, 0, digest, "");
      r := store.PutStreamVerified(key, metadata, source, client, Some(verify), env);
      PutEndsVerified(before, store.State(), key, StoredEntry(metadata, key, env, source.Content()), env, r, hash);
    }

    /** Reads a manifest of at most 16 MiB, checks it, and only then stores and sends it. */
    method CacheManifest(key: Key, header: Header, digest: string, source: Source, client: Client, env: PutEnv)
      returns (o: Outcome)
      requires ReadyToPut(store, key, env) && Verified()
      modifies store, client, if store.controller == null then {} else {store.controller}
      ensures Verified()
      ensures o.PassedThrough? <==> |source.Content()| > MAX_MANIFEST_BYTES
      ensures o.Refused? <==>
                |source.Content()| <= MAX_MANIFEST_BYTES
                && (source.fails || DecodeSHA256(digest) != Some(hash(source.Content())))
      ensures o.Cached? || o.PassedThrough? || o.Refused?
      ensures o.Cached? && client.fault.None? ==> client.received == old(client.received) + source.Content()
      ensures o.PassedThrough? && !Trips(client.fault, old(client.writes), source.chunks) ==>
                client.received == old(client.received) + source.Content()
      ensures o.Refused? ==> client.received == old(client.received)
      ensures o.Cached? ==>
                (o.r.Stored? <==>
                   PutStores(old(store.Budget()), WithLength(header, |source.Content()|),
                             Source([source.Content()], false), None, 0, true, env,
                             MetaFile(key) in old(store.fs).names))
      ensures o.Cached? && o.r.Stored? ==>
                && key in View(store.fs) && View(store.fs)[key].body == source.Content()
                && View(store.fs)[key].meta.contentDigest == digest
    {
      var body := source.Content();
      if |body| > MAX_MANIFEST_BYTES {
        var sent := CopyPlain(source, client);
        return PassedThrough;
      }
      if source.fails {
        return Refused;
      }
      var sound := VerifySum(hash(body), digest);
      if !sound {
        return Refused;
      }
      var r := StoreAndSend(key, header, digest, body, client, env);
      return Cached(r);
    }

    /** A checked manifest reaches the store before the client. */
    method StoreAndSend(key: Key, header: Header, digest: string, body: seq<Byte>, client: Client, env: PutEnv)
      returns (r: PutResult)
      requires ReadyToPut(store, key, env) && Verified() && Matches(hash, body, digest)
      modifies store, client, if store.controller == null then {} else {store.controller}
      ensures Verified()
      ensures client.fault.None? ==> client.received == old(client.received) + body
      ensures r.Stored? <==>
                PutStores(old(store.Budget()), WithLength(header, |body|), Source([body], false), None, 0, true, env,
                          MetaFile(key) in old(store.fs).names)
      ensures r.Stored? ==>
                && key in View(store.fs) && View(store.fs)[key].body == body
                && View(store.fs)[key].meta.contentDigest == digest
    {
      r := StoreBytes(key, header, digest, body, env);
      var n, failed := client.Write(body);
      assert body[..|body|] == body;
    }

    /** PutBytes: a put whose client end discards everything. */
    method StoreBytes(key: Key, header: Header, digest: string, body: seq<Byte>, env: PutEnv) returns (r: PutResult)
      requires ReadyToPut(store, key, env) && Verified() && Matches(hash, body, digest)
      modifies store, if store.controller == null then {} else {store.controller}
      ensures Verified()
      ensures r.Stored? <==>
                PutStores(old(store.Budget()), WithLength(header, |body|), Source([body], false), None, 0, true, env,
                          MetaFile(key) in old(store.fs).names)
      ensures r.Stored? ==>
                && key in View(store.fs) && View(store.fs)[key].body == body
                && View(store.fs)[key].meta.contentDigest == digest
    {
      var discard := new Client(None);
      var metadata := Metadata(OK, WithLength(header, |body|), 0, 0, digest, "");
      ghost var before := store.State();
      FlattenOne(body);
      r := store.PutStreamVerified(key, metadata, Source([body], false), discard, None, env);
      PutEndsVerified(before, store.State(), key, StoredEntry(metadata, key, env, body), env, r, hash);
    }

    /** A response that is not in the cache: only a checked body is stored, everything else just
        passes through. */
    method ServeMiss(request: Request, r: Resource, cacheable: bool, key: Key, upstream: Upstream, client: Client,
                     env: PutEnv)
      returns (o: Outcome, ghost kept: Header)
      requires ReadyToPut(store, key, env) && Verified()
      modifies store, client, if store.controller == null then {} else {store.controller}
      ensures Verified() && !o.Hit? && HttpPolicy.Filtered(upstream.header, kept)
      ensures var announced := HttpPolicy.Values(upstream.header, "Docker-Content-Digest");
              var expected := if r.digest != "" then r.digest else if announced != [] then announced[0] else "";
              var content := upstream.source.Content();
              var checked := cacheable && request.isGet && upstream.status == 200 && !r.kind.Other?
                             && HttpPolicy.ResponseAllowsStorage(request.header, upstream.header,
                                                                 {"Accept", "Accept-Encoding"})
                             && DecodeSHA256(expected).Some?;
              && (o.PassedThrough? <==> !checked || (r.kind.Manifest? && |content| > 16 * 1024 * 1024))
              && (o.Refused? <==>
                    checked && r.kind.Manifest? && |content| <= 16 * 1024 * 1024
                    && (upstream.source.fails || DecodeSHA256(expected) != Some(hash(content))))
              && (o.Cached? ==>
                    (o.r.Stored? <==>
                       if r.kind.Manifest? then
                         PutStores(old(store.Budget()), WithLength(CacheHeaders(kept, expected), |content|),
                                   Source([content], false), None, 0, true, env, MetaFile(key) in old(store.fs).names)
                       else
                         PutStores(old(store.Budget()), CacheHeaders(kept, expected), upstream.source, client.fault,
                                   old(client.writes), DecodeSHA256(expected) == Some(hash(content)), env,
                                   MetaFile(key) in old(store.fs).names)))
      ensures o.Cached? && o.r.Stored? ==>
                && key in View(store.fs) && View(store.fs)[key].body == upstream.source.Content()
                && (r.digest != "" ==>
                      && DecodeSHA256(r.digest) == Some(hash(upstream.source.Content()))
                      && View(store.fs)[key].meta.contentDigest == r.digest)
                && (r.digest == "" ==>
                      var announced := HttpPolicy.Values(upstream.header, "Docker-Content-Digest");
                      && announced != [] && DecodeSHA256(announced[0]) == Some(hash(upstream.source.Content()))
                      && View(store.fs)[key].meta.contentDigest == announced[0])
      ensures o.Refused? || !request.isGet ==> client.received == old(client.received)
      ensures request.isGet && client.fault.None?
              && (o.PassedThrough? || (o.Cached? && (r.kind.Manifest? || !o.r.Rejected?))) ==>
                client.received == old(client.received) + upstream.source.Content()
    {
      var headers := HttpPolicy.ResponseHeaders(upstream.header);
      kept := headers;
      NothingDecodes();
      if !MayStore(request, r, cacheable, upstream) {
        o := PassThrough(request, upstream, client);
        return;
      }
      var digest := ExpectedDigest(r, upstream);
      o := CacheResponse(r, key, CacheHeaders(headers, digest), digest, upstream.source, client, env);
    }

    /** The two kinds of response that are cached. */
    method CacheResponse(r: Resource, key: Key, header: Header, digest: string, source: Source, client: Client,
                         env: PutEnv)
      returns (o: Outcome)
      requires ReadyToPut(store, key, env) && Verified() && !r.kind.Other?
      modifies store, client, if store.controller == null then {} else {store.controller}
      ensures Verified() && !o.Hit?
      ensures o.PassedThrough? <==> r.kind.Manifest? && |source.Content()| > MAX_MANIFEST_BYTES
      ensures o.Refused? <==>
                r.kind.Manifest? && |source.Content()| <= MAX_MANIFEST_BYTES
                && (source.fails || DecodeSHA256(digest) != Some(hash(source.Content())))
      ensures o.Cached? ==>
                (o.r.Stored? <==>
                   if r.kind.Manifest? then
                     PutStores(old(store.Budget()), WithLength(header, |source.Content()|),
                               Source([source.Content()], false), None, 0, true, env,
                               MetaFile(key) in old(store.fs).names)
                   else
                     PutStores(old(store.Budget()), header, source, client.fault, old(client.writes),
                               DecodeSHA256(digest) == Some(hash(source.Content())), env,
                               MetaFile(key) in old(store.fs).names))
      ensures o.Cached? && o.r.Stored? ==>
                && key in View(store.fs) && View(store.fs)[key].body == source.Content()
                && View(store.fs)[key].meta.contentDigest == digest
                && DecodeSHA256(digest) == Some(hash(source.Content()))
      ensures o.Refused? ==> client.received == old(client.received)
      ensures client.fault.None? && (o.PassedThrough? || (o.Cached? && (r.kind.Manifest? || !o.r.Rejected?))) ==>
                client.received == old(client.received) + source.Content()
      ensures o.Cached? && r.kind.Blob?
              && PutDelivers(old(store.Budget()), header, source, client.fault, old(client.writes), env) ==>
                client.received == old(client.received) + source.Content()
    {
      NoFaultNoTrip(client.writes, 0, source.chunks);
      if r.kind.Manifest? {
        o := CacheManifest(key, header, digest, source, client, env);
      } else {
        var put := CacheBlob(key, header, digest, source, client, env);
        o := Cached(put);
      }
    }

    /** passThrough: the body goes to the client of a GET and nowhere else. */
    method PassThrough(request: Request, upstream: Upstream, client: Client) returns (o: Outcome)
      modifies client
      ensures o == PassedThrough
      ensures !request.isGet ==> client.received == old(client.received)
      ensures request.isGet && !Trips(client.fault, old(client.writes), upstream.source.chunks) ==>
                client.received == old(client.received) + upstream.source.Content()
    {
      if request.isGet {
        var sent := CopyPlain(upstream.source, client);
      }
      o := PassedThrough;
    }

    /** Looks the key up and asks the upstream whether its digest is still the cached one. */
    method LookupAuthorized(key: Key, lifetime: int, now: int, io: ReadFaults, touchFails: bool, head: Head,
                            ghost env: PutEnv)
      returns (hit: Option<Entry>)
      requires ReadyToPut(store, key, env) && Verified()
      modifies store`fs
      ensures ReadyToPut(store, key, env) && Verified() && View(store.fs) == View(old(store.fs))
      ensures hit.Some? ==>
                && key in View(store.fs) && hit.value == View(store.fs)[key]
                && EntryVerified(hash, hit.value) && Authorizes(head, hit.value.meta.contentDigest)
      ensures hit.Some? <==>
                && key in View(old(store.fs)) && now - View(old(store.fs))[key].meta.storedAt < lifetime
                && !io.meta && !io.stat && !io.open
                && head.Answer? && 200 <= head.status < 300 && head.digest != ""
                && View(old(store.fs))[key].meta.contentDigest != ""
                && EqualFold(head.digest, View(old(store.fs))[key].meta.contentDigest)
      ensures store.fs.names == old(store.fs).names
    {
      var found := LookUp(key, lifetime, now, io, touchFails, env);
      if found.Some? && Authorizes(head, found.value.meta.contentDigest) {
        hit := found;
      } else {
        hit := None;
      }
    }

    /** lookup: a lookup that fails is one that finds nothing. */
    method LookUp(key: Key, lifetime: int, now: int, io: ReadFaults, touchFails: bool, ghost env: PutEnv)
      returns (found: Option<Entry>)
      requires ReadyToPut(store, key, env)
      modifies store`fs
      ensures ReadyToPut(store, key, env) && View(store.fs) == View(old(store.fs))
      ensures found == if MayHit(View(old(store.fs)), key, lifetime, now, io) then Some(View(old(store.fs))[key])
                       else None
      ensures store.fs.names == old(store.fs).names
    {
      ViewIsGet(store.fs, key);
      ghost var before := store.State();
      var r := store.Lookup(key, lifetime, now, io, touchFails);
      if r.Hit? && !touchFails {
        HitDates(before.fs, store.fs, key, r.entry, r.ino, now);
      }
      Touched(before, store.State(), key, now, env);
      if store.controller != null { StillCovers(store.controller, before, store.State()); }
      found := if r.Hit? then Some(r.entry) else None;
    }

    /** One request. A hit is served exactly if the request may be, the entry is there, fresh and
        readable, and the upstream's HEAD answer to this very request carries the cached digest;
        the client of a GET gets exactly the cached body; and that body hashes to the digest in the
        answer, whenever the answer decodes as one. What a miss stores hashes to the digest in the
        path, or, under a tag, to the one the upstream announces, and is recorded with it. */
    method ServeHTTP(request: Request, key: Key, heads: (Head, Head), upstream: Upstream, now: int,
                     io: ReadFaults, touchFails: bool, client: Client, env: PutEnv) returns (o: Outcome)
      requires ReadyToPut(store, key, env) && Verified() && IsSha256(hash)
      modifies store, client, if store.controller == null then {} else {store.controller}
      ensures Verified()
      ensures o.Hit? ==>
                && key in View(old(store.fs)) && o.entry == View(old(store.fs))[key]
                && View(store.fs) == View(old(store.fs))
                && (o.head == heads.0 || o.head == heads.1) && Authorizes(o.head, o.entry.meta.contentDigest)
                && (Matches(hash, o.entry.body, o.head.digest) <==> LONG_S !in o.head.digest)
      ensures o.Hit? && client.fault.None? ==>
                client.received == old(client.received) + (if request.isGet then o.entry.body else [])
      ensures o.Hit? <==>
                && Classify(request.path).cacheable && !request.range
                && !HttpPolicy.RequestBypassesCache(request.header)
                && (var r := Classify(request.path);
                    var lifetime := if r.kind.Blob? || r.digest != "" then 315_360_000_000_000_000 else ttl;
                    MayHit(View(old(store.fs)), key, lifetime, now, io))
                && (Authorizes(heads.0, View(old(store.fs))[key].meta.contentDigest)
                    || Authorizes(heads.1, View(old(store.fs))[key].meta.contentDigest))
      ensures !o.Hit? ==>
                var r := Classify(request.path);
                var announced := HttpPolicy.Values(upstream.header, "Docker-Content-Digest");
                var expected := if r.digest != "" then r.digest else if announced != [] then announced[0] else "";
                var content := upstream.source.Content();
                var checked := r.cacheable && !request.range && !HttpPolicy.RequestBypassesCache(request.header)
                               && request.isGet && upstream.status == 200 && !r.kind.Other?
                               && HttpPolicy.ResponseAllowsStorage(request.header, upstream.header,
                                                                   {"Accept", "Accept-Encoding"})
                               && DecodeSHA256(expected).Some?;
                && (o.PassedThrough? <==> !checked || (r.kind.Manifest? && |content| > 16 * 1024 * 1024))
                && (o.Refused? <==>
                      checked && r.kind.Manifest? && |content| <= 16 * 1024 * 1024
                      && (upstream.source.fails || DecodeSHA256(expected) != Some(hash(content))))
      ensures o.Cached? && o.r.Stored? ==>
                var r := Classify(request.path);
                && key in View(store.fs) && View(store.fs)[key].body == upstream.source.Content()
                && (r.digest != "" ==>
                      && DecodeSHA256(r.digest) == Some(hash(upstream.source.Content()))
                      && View(store.fs)[key].meta.contentDigest == r.digest)
                && (r.digest == "" ==>
                      var announced := HttpPolicy.Values(upstream.header, "Docker-Content-Digest");
                      && announced != [] && DecodeSHA256(announced[0]) == Some(hash(upstream.source.Content()))
                      && View(store.fs)[key].meta.contentDigest == announced[0])
      ensures o.Refused? || (!o.Hit? && !request.isGet) ==> client.received == old(client.received)
      ensures request.isGet && client.fault.None?
              && (o.PassedThrough? || (o.Cached? && (Classify(request.path).kind.Manifest? || !o.r.Rejected?))) ==>
                client.received == old(client.received) + upstream.source.Content()
    {
      var r := Classify(request.path);
      var cacheable := r.cacheable && !request.range && !HttpPolicy.RequestBypassesCache(request.header);
      if cacheable {
        o := TryCacheTwice(request, key, Ttl(r, ttl), now, io, touchFails, heads, client, env);
        if o.Hit? {
          return;
        }
      }
      ghost var kept;
      o, kept := ServeMiss(request, r, cacheable, key, upstream, client, env);
    }

    /** Before the key's lock is taken, and again under it. */
    method TryCacheTwice(request: Request, key: Key, lifetime: int, now: int, io: ReadFaults, touchFails: bool,
                         heads: (Head, Head), client: Client, ghost env: PutEnv) returns (o: Outcome)
      requires ReadyToPut(store, key, env) && Verified() && IsSha256(hash)
      modifies store`fs, client
      ensures Verified() && View(store.fs) == View(old(store.fs))
      ensures !o.Hit? ==> ReadyToPut(store, key, env) && store.fs.names == old(store.fs).names
      ensures o.Hit? <==>
                MayHit(View(old(store.fs)), key, lifetime, now, io)
                && (Authorizes(heads.0, View(old(store.fs))[key].meta.contentDigest)
                    || Authorizes(heads.1, View(old(store.fs))[key].meta.contentDigest))
      ensures o.Hit? ==>
                && key in View(store.fs) && o.entry == View(store.fs)[key]
                && (o.head == heads.0 || o.head == heads.1) && Authorizes(o.head, o.entry.meta.contentDigest)
                && (Matches(hash, o.entry.body, o.head.digest) <==> LONG_S !in o.head.digest)
      ensures o.Hit? && client.fault.None? ==>
                client.received == old(client.received) + (if request.isGet then o.entry.body else [])
      ensures !o.Hit? ==> client.received == old(client.received) && client.writes == old(client.writes)
    {
      o := TryCache(request, key, lifetime, now, io, touchFails, heads.0, client, env);
      if !o.Hit? {
        o := TryCache(request, key, lifetime, now, io, touchFails, heads.1, client, env);
      }
    }

    /** The lookup on one side of the key's lock. */
    method TryCache(request: Request, key: Key, lifetime: int, now: int, io: ReadFaults, touchFails: bool, head: Head,
                    client: Client, ghost env: PutEnv) returns (o: Outcome)
      requires ReadyToPut(store, key, env) && Verified() && IsSha256(hash)
      modifies store`fs, client
      ensures Verified() && View(store.fs) == View(old(store.fs))
      ensures !o.Hit? ==> ReadyToPut(store, key, env) && store.fs.names == old(store.fs).names
      ensures o.Hit? <==>
                MayHit(View(old(store.fs)), key, lifetime, now, io)
                && Authorizes(head, View(old(store.fs))[key].meta.contentDigest)
      ensures o.Hit? ==>
                && key in View(store.fs) && o.entry == View(store.fs)[key] && o.head == head
                && Authorizes(head, o.entry.meta.contentDigest)
                && (Matches(hash, o.entry.body, head.digest) <==> LONG_S !in head.digest)
      ensures o.Hit? && client.fault.None? ==>
                client.received == old(client.received) + (if request.isGet then o.entry.body else [])
      ensures !o.Hit? ==> client.received == old(client.received) && client.writes == old(client.writes)
    {
      var found := LookupAuthorized(key, lifetime, now, io, touchFails, head, env);
      if found.Some? {
        o := ServeHit(request, found.value, head, client);
      } else {
        o := Refused;
      }
    }

    method ServeHit(request: Request, entry: Entry, head: Head, client: Client) returns (o: Outcome)
      requires IsSha256(hash) && EntryVerified(hash, entry) && Authorizes(head, entry.meta.contentDigest)
      modifies client
      ensures o == Outcome.Hit(entry, head)
      ensures client.fault.None? ==>
                client.received == old(client.received) + (if request.isGet then entry.body else [])
      ensures Matches(hash, entry.body, head.digest) <==> LONG_S !in head.digest
    {
      AuthorizedMatches(head, entry, hash);
      if request.isGet {
        var n, failed := client.Write(entry.body);
        assert entry.body[..|entry.body|] == entry.body;
      } else {
        assert client.received + [] == client.received;
      }
      o := Outcome.Hit(entry, head);
    }
  }

  /** A lookup at most moved one body's access time. */
  lemma Touched(before: StoreState, after: StoreState, key: Key, now: int, env: PutEnv)
    requires ReadyState(before, key, env) && Wf(after.fs) && after == before.(fs := after.fs)
    requires after.fs == before.fs || exists p: Path :: p.IsBody() && after.fs == Do(before.fs, Chtimes(p, now))
    ensures ReadyState(after, key, env)
    ensures View(after.fs) == View(before.fs) && ByteDrift(after) == ByteDrift(before)
  {
    if after.fs != before.fs {
      var p: Path :| p.IsBody() && after.fs == Do(before.fs, Chtimes(p, now));
      TouchKeepsFresh(before, p, now, key, env.bodySuffix, env.metaSuffix);
    }
  }
}
