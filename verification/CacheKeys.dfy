/** The keys under which the proxies store responses. */
module CacheKeys {

  /** What npm and OCI store a response under. */
  function RequestKey(name: string, target: string, accept: string): string {
    name + "\n" + target + "\naccept:" + accept
  }

  /** What PyPI stores a page or file under; the expected digest is part of the key. */
  function FileKey(name: string, kind: string, target: string, accept: string, sha256: string): string {
    name + "\n" + kind + "\n" + target + "\naccept:" + accept + "\nsha256:" + sha256
  }

  lemma {:induction false} LinesCutOnce(a: string, x: string, b: string, y: string)
    requires a + "\n" + x == b + "\n" + y && '\n' !in a && '\n' !in b
    ensures a == b && x == y
    decreases |a|
  {
    var l, r := a + "\n" + x, b + "\n" + y;
    assert l[0] == if a == "" then '\n' else a[0];
    assert r[0] == if b == "" then '\n' else b[0];
    if a == "" {
      assert l[1..] == x && r[1..] == y;
    } else {
      assert l[1..] == a[1..] + "\n" + x && r[1..] == b[1..] + "\n" + y;
      LinesCutOnce(a[1..], x, b[1..], y);
      assert a == [a[0]] + a[1..] && b == [b[0]] + b[1..];
    }
  }

  lemma PrefixCut(p: string, x: string, y: string)
    requires p + x == p + y
    ensures x == y
  {
    assert (p + x)[|p|..] == x && (p + y)[|p|..] == y;
  }

  /** Different targets or different Accept headers never share an entry. A URL's string form
      holds no newline; the Accept header may hold anything. */
  lemma RequestKeyIsInjective(name: string, t1: string, a1: string, t2: string, a2: string)
    requires '\n' !in t1 && '\n' !in t2
    requires RequestKey(name, t1, a1) == RequestKey(name, t2, a2)
    ensures t1 == t2 && a1 == a2
  {
    var x, y := t1 + "\n" + ("accept:" + a1), t2 + "\n" + ("accept:" + a2);
    assert RequestKey(name, t1, a1) == (name + "\n") + x;
    assert RequestKey(name, t2, a2) == (name + "\n") + y;
    PrefixCut(name + "\n", x, y);
    LinesCutOnce(t1, "accept:" + a1, t2, "accept:" + a2);
    PrefixCut("accept:", a1, a2);
  }

  /** The whole tuple can be read back from a file key, the expected digest included. */
  lemma FileKeyIsInjective(name: string, k1: string, t1: string, a1: string, s1: string,
                           k2: string, t2: string, a2: string, s2: string)
    requires '\n' !in k1 && '\n' !in k2 && '\n' !in t1 && '\n' !in t2 && '\n' !in a1 && '\n' !in a2
    requires FileKey(name, k1, t1, a1, s1) == FileKey(name, k2, t2, a2, s2)
    ensures k1 == k2 && t1 == t2 && a1 == a2 && s1 == s2
  {
    var x, y := FileTail(k1, t1, a1, s1), FileTail(k2, t2, a2, s2);
    FileKeyParts(name, k1, t1, a1, s1);
    FileKeyParts(name, k2, t2, a2, s2);
    PrefixCut(name + "\n", x, y);
    LinesCutOnce(k1, AfterKind(t1, a1, s1), k2, AfterKind(t2, a2, s2));
    LinesCutOnce(t1, AfterTarget(a1, s1), t2, AfterTarget(a2, s2));
    var b1, b2 := a1 + "\n" + ("sha256:" + s1), a2 + "\n" + ("sha256:" + s2);
    PrefixCut("accept:", b1, b2);
    LinesCutOnce(a1, "sha256:" + s1, a2, "sha256:" + s2);
    PrefixCut("sha256:", s1, s2);
  }

  /** Repositories that share a store share no entry: their names hold no newline. */
  lemma RepositoriesShareNoKey(n1: string, n2: string, t1: string, a1: string, t2: string, a2: string,
                               k1: string, s1: string, k2: string, s2: string)
    requires '\n' !in n1 && '\n' !in n2 && n1 != n2
    ensures RequestKey(n1, t1, a1) != RequestKey(n2, t2, a2)
    ensures FileKey(n1, k1, t1, a1, s1) != FileKey(n2, k2, t2, a2, s2)
    ensures RequestKey(n1, t1, a1) != FileKey(n2, k2, t2, a2, s2)
  {
    var x1, x2 := t1 + "\naccept:" + a1, t2 + "\naccept:" + a2;
    var y1, y2 := FileTail(k1, t1, a1, s1), FileTail(k2, t2, a2, s2);
    assert RequestKey(n1, t1, a1) == n1 + "\n" + x1 && RequestKey(n2, t2, a2) == n2 + "\n" + x2;
    FileKeyParts(n1, k1, t1, a1, s1);
    FileKeyParts(n2, k2, t2, a2, s2);
    NamesDiffer(n1, x1, n2, x2);
    NamesDiffer(n1, y1, n2, y2);
    NamesDiffer(n1, x1, n2, y2);
  }

  lemma NamesDiffer(n1: string, x: string, n2: string, y: string)
    requires '\n' !in n1 && '\n' !in n2 && n1 != n2
    ensures n1 + "\n" + x != n2 + "\n" + y
  {
    if n1 + "\n" + x == n2 + "\n" + y {
      LinesCutOnce(n1, x, n2, y);
    }
  }

  function AfterTarget(accept: string, sha256: string): string { "accept:" + (accept + "\n" + ("sha256:" + sha256)) }
  function AfterKind(target: string, accept: string, sha256: string): string {
    target + "\n" + AfterTarget(accept, sha256)
  }
  function FileTail(kind: string, target: string, accept: string, sha256: string): string {
    kind + "\n" + AfterKind(target, accept, sha256)
  }

  lemma FileKeyParts(name: string, kind: string, target: string, accept: string, sha256: string)
    ensures FileKey(name, kind, target, accept, sha256) == (name + "\n") + FileTail(kind, target, accept, sha256)
  {
    assert "\naccept:" == "\n" + "accept:" && "\nsha256:" == "\n" + "sha256:";
    var t := AfterTarget(accept, sha256);
    assert t == "accept:" + accept + "\nsha256:" + sha256;
    assert target + "\n" + t == target + "\naccept:" + accept + "\nsha256:" + sha256;
  }
}
