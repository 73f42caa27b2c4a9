/** Links to package files: an upstream URL goes into a proxy link's query and comes back out.
    URLs are records; printing, parsing and percent-encoding them are inverses and stay outside. */
module PypiLinks {
  import opened Text
  import opened Basics
  import opened Digest

  /** user: userinfo; rawPath: the path's original escaping where it differs from the default. */
  datatype Url = Url(scheme: string, user: Option<string>, host: string, path: string, rawPath: string,
                     query: string, fragment: string)

  /** The request a proxy link leads to: the decoded path and the decoded query. */
  datatype LinkRequest = LinkRequest(path: string, url: Option<Url>, sha256: string)

  const SIDECAR := ".metadata"

  function StripSlashes(s: string): string {
    if s != "" && s[|s| - 1] == '/' then StripSlashes(s[..|s| - 1]) else s
  }

  function AfterLastSlash(s: string): string {
    if s == "" || s[|s| - 1] == '/' then "" else AfterLastSlash(s[..|s| - 1]) + [s[|s| - 1]]
  }

  /** path.Base. */
  function Base(p: string): string {
    if p == "" then "."
    else var s := StripSlashes(p); if s == "" then "/" else AfterLastSlash(s)
  }

  // ---------------------------------------------------------------- digests in links

  function Sha256In(value: string): string {
    var sha := ToLower(TrimSpace(value));
    if |sha| == 2 * SHA256_SIZE && DecodeHex(sha).Some? then sha else ""
  }

  /** sha256FromFragment, on the parsed fragment; None is one that does not parse. */
  function FragmentSha256(fields: Option<map<string, string>>): string {
    match fields
    case Some(f) => if "sha256" in f then Sha256In(f["sha256"]) else ""
    case None => ""
  }

  lemma {:induction false} HexHasNoSpace(s: string)
    requires DecodeHex(s).Some?
    ensures forall i :: 0 <= i < |s| ==> IsHexDigit(s[i])
  {
    if s != "" { HexHasNoSpace(s[2..]); assert s == [s[0], s[1]] + s[2..]; }
  }

  // ---------------------------------------------------------------- links

  function LinkName(target: Url): string {
    var name := Base(target.path);
    if name == "." || name == "/" || name == "" then "artifact" else name
  }

  /** proxyFileURL: the upstream URL without its fragment, and the digest from it, as a query under
      the file's own name. */
  function FileLink(base: string, target: Url, fields: Option<map<string, string>>): LinkRequest {
    LinkRequest(base + "/" + LinkName(target), Some(target.(fragment := "")), FragmentSha256(fields))
  }

  datatype LinkError = MissingUrl | NotAbsolute | NotHttp | HasUserOrFragment | OriginNotAllowed | BadSha256

  datatype Target = Target(url: Url, sha256: string) | Failure(error: LinkError)

  function WithSidecar(u: Url): Url {
    u.(path := u.path + SIDECAR, rawPath := if u.rawPath != "" then u.rawPath + SIDECAR else "")
  }

  /** fileTargetURL. */
  function FileTarget(r: LinkRequest, allowed: Url -> bool): Target {
    if r.url.None? then Failure(MissingUrl)
    else
      var u := r.url.value;
      if u.scheme == "" || u.host == "" then Failure(NotAbsolute)
      else if u.scheme != "http" && u.scheme != "https" then Failure(NotHttp)
      else if u.user.Some? || u.fragment != "" then Failure(HasUserOrFragment)
      else if !allowed(u) then Failure(OriginNotAllowed)
      else
        var proxyMetadata := EndsWith(Base(r.path), SIDECAR);
        var targetMetadata := EndsWith(Base(u.path), SIDECAR);
        var target := if proxyMetadata && !targetMetadata then WithSidecar(u) else u;
        var sha := if proxyMetadata || targetMetadata then "" else ToLower(TrimSpace(r.sha256));
        if sha != "" && (|sha| != 2 * SHA256_SIZE || DecodeHex(sha).None?) then Failure(BadSha256)
        else Target(target, sha)
  }

  /** The URLs a page may link to as files. */
  predicate Linkable(u: Url, allowed: Url -> bool) {
    u.scheme in {"http", "https"} && u.host != "" && u.user == None && u.fragment == "" && allowed(u)
  }

  lemma {:induction false} BaseOfName(prefix: string, name: string)
    requires '/' !in name && name != ""
    ensures Base(prefix + "/" + name) == name
  {
    var p := prefix + "/" + name;
    assert p[|p| - 1] == name[|name| - 1];
    assert StripSlashes(p) == p;
    NameAfterSlash(prefix, name);
  }

  lemma {:induction false} NameAfterSlash(prefix: string, name: string)
    requires '/' !in name
    ensures AfterLastSlash(prefix + "/" + name) == name
    decreases |name|
  {
    var p := prefix + "/" + name;
    if name == "" {
      assert p == prefix + "/";
    } else {
      var front := name[..|name| - 1];
      assert p[..|p| - 1] == prefix + "/" + front && p[|p| - 1] == name[|name| - 1];
      NameAfterSlash(prefix, front);
      assert name == front + [name[|name| - 1]];
    }
  }

  lemma {:induction false} BaseHasNoSlash(s: string)
    ensures '/' !in AfterLastSlash(s)
  {
    if s != "" && s[|s| - 1] != '/' { BaseHasNoSlash(s[..|s| - 1]); }
  }

  lemma LinkNameIsPlain(target: Url)
    ensures '/' !in LinkName(target) && LinkName(target) != ""
    ensures EndsWith(LinkName(target), SIDECAR) <==> EndsWith(Base(target.path), SIDECAR)
  {
    BaseHasNoSlash(StripSlashes(target.path));
  }

  /** Round trip: the link made for a file, whatever fragment its URL has, leads back to the same URL
      without the fragment, and to the same digest
      exactly if the URL's last path element does not itself name a metadata sidecar, or there was
      no digest. A trailing slash does not hide such a name. */
  lemma LinkRoundTrip(base: string, target: Url, fields: Option<map<string, string>>, allowed: Url -> bool)
    requires Linkable(target.(fragment := ""), allowed)
    ensures var r := FileTarget(FileLink(base, target, fields), allowed);
            && r.Target? && r.url == target.(fragment := "")
            && (r.sha256 == FragmentSha256(fields) <==>
                  !EndsWith(Base(target.path), SIDECAR) || FragmentSha256(fields) == "")
  {
    LinkNameIsPlain(target);
    BaseOfName(base, LinkName(target));
    FragmentShaIsStable(fields);
  }

  /** A URL that names a sidecar itself comes back without a digest. */
  lemma SidecarNameLosesDigest(base: string, target: Url, fields: Option<map<string, string>>, allowed: Url -> bool)
    requires Linkable(target.(fragment := ""), allowed) && EndsWith(Base(target.path), SIDECAR)
    ensures FileTarget(FileLink(base, target, fields), allowed) == Target(target.(fragment := ""), "")
  {
    LinkNameIsPlain(target);
    BaseOfName(base, LinkName(target));
  }

  lemma BaseBehindSlash(name: string)
    requires name != "" && '/' !in name
    ensures Base("/" + name + "/") == name
  {
    var p := "/" + name + "/";
    assert p[..|p| - 1] == "" + "/" + name && p[|p| - 1] == '/';
    NameAfterSlash("", name);
    assert StripSlashes(p) == p[..|p| - 1];
  }

  function SlashUrl(name: string): Url { Url("https", None, "files.example", "/" + name + "/", "", "", "") }

  /** The path of such a URL need not end in ".metadata": a slash behind the name hides it, and a
      digest beside it is lost. */
  lemma TrailingSlashLosesDigest(base: string, fields: Option<map<string, string>>)
    requires FragmentSha256(fields) != ""
    ensures FileTarget(FileLink(base, SlashUrl("w.metadata"), fields), _ => true) == Target(SlashUrl("w.metadata"), "")
    ensures !EndsWith(SlashUrl("w.metadata").path, SIDECAR)
  {
    var name := "w.metadata";
    assert name[1..] == SIDECAR;
    BaseBehindSlash(name);
    SidecarNameLosesDigest(base, SlashUrl(name), fields, _ => true);
    assert SlashUrl(name).(fragment := "") == SlashUrl(name);
    var path := SlashUrl(name).path;
    assert path[|path| - 1] == '/' && SIDECAR[|SIDECAR| - 1] == 'a';
  }

  /** A digest taken from one link is taken unchanged from the next. */
  lemma FragmentShaIsStable(fields: Option<map<string, string>>)
    ensures var sha := FragmentSha256(fields);
            && ToLower(TrimSpace(sha)) == sha
            && (sha != "" ==> |sha| == 2 * SHA256_SIZE && DecodeHex(sha).Some?)
  {
    var sha := FragmentSha256(fields);
    if sha != "" {
      HexHasNoSpace(sha);
      TrimmedEnds(sha);
      LowerTwice(TrimSpace(fields.value["sha256"]));
      LowerIsFixed(sha);
    } else {
      assert TrimSpace("") == "" && ToLower("") == "";
    }
  }

  /** What a link with a digest in it says: the digest of the file, as any hexadecimal writer spells it. */
  lemma FragmentOfDigest(digest: seq<Byte>)
    requires |digest| == SHA256_SIZE
    ensures FragmentSha256(Some(map["sha256" := EncodeHex(digest)])) == EncodeHex(digest)
  {
    var hex := EncodeHex(digest);
    DecodeOfEncode(digest);
    HexHasNoSpace(hex);
    TrimmedEnds(hex);
    LowerIsFixed(hex);
  }

  /** Exactly these links are followed, whatever the request looks like otherwise: an absolute http
      or https URL of an allowed origin, without userinfo or fragment, and beside it, unless a
      sidecar is meant, no digest or one of 64 hexadecimal characters. */
  lemma FollowedIff(r: LinkRequest, allowed: Url -> bool)
    ensures FileTarget(r, allowed).Target? <==>
              && r.url.Some? && (r.url.value.scheme == "http" || r.url.value.scheme == "https")
              && r.url.value.host != "" && r.url.value.user == None && r.url.value.fragment == ""
              && allowed(r.url.value)
              && (EndsWith(Base(r.path), ".metadata") || EndsWith(Base(r.url.value.path), ".metadata")
                  || (var sha := ToLower(TrimSpace(r.sha256));
                      sha == "" || (|sha| == 64 && DecodeHex(sha).Some?)))
    ensures FileTarget(r, allowed).Target? && FileTarget(r, allowed).sha256 != "" ==>
              FileTarget(r, allowed).sha256 == ToLower(TrimSpace(r.sha256))
              && FileTarget(r, allowed).url == r.url.value
    ensures FileTarget(r, allowed).Target? ==>
              FileTarget(r, allowed).url == r.url.value
              || (EndsWith(Base(r.path), ".metadata")
                  && FileTarget(r, allowed).url.path == r.url.value.path + ".metadata")
  {
  }

  lemma SidecarTarget(r: LinkRequest, u: Url, allowed: Url -> bool)
    requires r.url == Some(u) && Linkable(u, allowed)
    requires EndsWith(Base(r.path), SIDECAR) && !EndsWith(Base(u.path), SIDECAR)
    ensures FileTarget(r, allowed) == Target(WithSidecar(u), "")
  {
  }

  /** PEP 658 and PEP 714 sidecars: ".metadata" appended to a link's path leads to the target's own
      sidecar, without the distribution's digest. */
  lemma SidecarOfLink(base: string, target: Url, fields: Option<map<string, string>>, allowed: Url -> bool)
    requires Linkable(target.(fragment := ""), allowed) && !EndsWith(Base(target.path), SIDECAR)
    ensures var link := FileLink(base, target, fields);
            FileTarget(link.(path := link.path + SIDECAR), allowed) == Target(WithSidecar(target.(fragment := "")), "")
  {
    var name, plain := LinkName(target), target.(fragment := "");
    LinkNameIsPlain(target);
    assert (base + "/" + name) + SIDECAR == base + "/" + (name + SIDECAR);
    BaseOfName(base, name + SIDECAR);
    assert (name + SIDECAR)[|name|..] == SIDECAR;
    SidecarTarget(LinkRequest(base + "/" + (name + SIDECAR), Some(plain), FragmentSha256(fields)), plain, allowed);
  }
}
