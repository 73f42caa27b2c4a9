/** Shared-cache header policy: cache directives, Vary, and the headers kept in metadata. */
module HttpPolicy {
  import opened Basics
  import opened Text

  // ---------------------------------------------------------------- canonical names

  predicate TokenChar(c: char) {
    || 'a' <= c <= 'z' || 'A' <= c <= 'Z' || '0' <= c <= '9'
    || c in {'!', '#', '$', '%', '&', '\'', '*', '+', '-', '.', '^', '_', '`', '|', '~'}
  }

  function CaseChar(c: char, upper: bool): char {
    if upper && 'a' <= c <= 'z' then c - ('a' - 'A')
    else if !upper && 'A' <= c <= 'Z' then c + ('a' - 'A')
    else c
  }

  function Capitalise(s: string, upper: bool): string {
    if s == "" then "" else [CaseChar(s[0], upper)] + Capitalise(s[1..], s[0] == '-')
  }

  predicate IsToken(s: string) { forall i :: 0 <= i < |s| ==> TokenChar(s[i]) }

  /** http.CanonicalHeaderKey: names that are not tokens are left alone. */
  function Canonical(s: string): string {
    if IsToken(s) then Capitalise(s, true) else s
  }

  lemma {:induction false} CapitaliseTwice(s: string, upper: bool)
    ensures Capitalise(Capitalise(s, upper), upper) == Capitalise(s, upper)
    ensures IsToken(s) ==> IsToken(Capitalise(s, upper))
  {
    if s != "" {
      CapitaliseTwice(s[1..], s[0] == '-');
      assert Capitalise(s, upper)[1..] == Capitalise(s[1..], s[0] == '-');
      assert IsToken(s) ==> IsToken(s[1..]) && TokenChar(s[0]);
    }
  }

  lemma {:induction false} CapitaliseLength(s: string, upper: bool)
    ensures |Capitalise(s, upper)| == |s|
  {
    if s != "" { CapitaliseLength(s[1..], s[0] == '-'); }
  }

  lemma {:induction false} CapitaliseAt(s: string, upper: bool, i: nat)
    requires i < |s|
    ensures |Capitalise(s, upper)| == |s|
    ensures Capitalise(s, upper)[i] == CaseChar(s[i], if i == 0 then upper else s[i - 1] == '-')
  {
    CapitaliseLength(s, upper);
    if i > 0 { CapitaliseAt(s[1..], s[0] == '-', i - 1); }
  }

  /** The canonical name, letter by letter: capitals at the start and behind dashes, small letters
      elsewhere, everything else as it was. */
  lemma CanonicalAt(s: string, i: nat)
    requires IsToken(s) && i < |s|
    ensures |Canonical(s)| == |s|
    ensures var first, c := i == 0 || s[i - 1] == '-', Canonical(s)[i];
            && (first && 'a' <= s[i] <= 'z' ==> 'A' <= c <= 'Z' && c as int == s[i] as int - 32)
            && (!first && 'A' <= s[i] <= 'Z' ==> 'a' <= c <= 'z' && c as int == s[i] as int + 32)
            && (!(first && 'a' <= s[i] <= 'z') && !(!first && 'A' <= s[i] <= 'Z') ==> c == s[i])
  {
    CapitaliseAt(s, true, i);
  }

  lemma CanonicalTwice(s: string)
    ensures Canonical(Canonical(s)) == Canonical(s)
  {
    CapitaliseTwice(s, true);
  }

  function Values(h: Header, name: string): seq<string> {
    if Canonical(name) in h then h[Canonical(name)] else []
  }

  // ---------------------------------------------------------------- directives

  datatype Directive = Directive(name: string, value: string)

  /** The part before the first '=' and the part after it (empty if there is none). */
  function CutEquals(s: string): (string, string) {
    if s == "" then ("", "")
    else if s[0] == '=' then ("", s[1..])
    else ([s[0]] + CutEquals(s[1..]).0, CutEquals(s[1..]).1)
  }

  function ParseDirective(element: string): Directive {
    var (name, value) := CutEquals(element);
    Directive(ToLower(TrimSpace(name)), TrimSpace(value))
  }

  /** The directives of a list of elements, nameless ones dropped. */
  function DirectivesOf(elements: seq<string>): seq<Directive> {
    if elements == [] then []
    else
      var d := ParseDirective(elements[|elements| - 1]);
      DirectivesOf(elements[..|elements| - 1]) + (if d.name == "" then [] else [d])
  }

  function Directives(lines: seq<string>): seq<Directive> { DirectivesOf(Elements(lines)) }

  lemma DirectivesStep(done: seq<string>, element: string)
    ensures var d := ParseDirective(element);
            DirectivesOf(done + [element]) == DirectivesOf(done) + (if d.name == "" then [] else [d])
  {
    assert (done + [element])[..|done|] == done;
  }

  lemma PartStep(parts: seq<string>, j: nat, done: seq<string>)
    requires j < |parts|
    ensures done + TrimAll(parts[j..]) == (done + [TrimSpace(parts[j])]) + TrimAll(parts[j + 1..])
  {
    assert parts[j..][1..] == parts[j + 1..];
  }

  lemma LineStep(lines: seq<string>, i: nat, done: seq<string>)
    requires i < |lines|
    ensures done + Elements(lines[i..]) == (done + TrimAll(Split(lines[i]))) + Elements(lines[i + 1..])
  {
    assert lines[i..][1..] == lines[i + 1..];
  }

  /** cacheDirectives: every line is split at commas, every part trimmed and cut at '='. */
  method CacheDirectives(lines: seq<string>) returns (directives: seq<Directive>)
    ensures directives == Directives(lines)
  {
    directives := [];
    ghost var done: seq<string> := [];
    var i := 0;
    while i < |lines|
      invariant i <= |lines|
      invariant Elements(lines) == done + Elements(lines[i..])
      invariant directives == DirectivesOf(done)
    {
      var parts := Split(lines[i]);
      LineStep(lines, i, done);
      ghost var total := done + TrimAll(parts);
      var j := 0;
      while j < |parts|
        invariant j <= |parts|
        invariant total == done + TrimAll(parts[j..])
        invariant directives == DirectivesOf(done)
      {
        var element := TrimSpace(parts[j]);
        var cut := CutEquals(element);
        var name := ToLower(TrimSpace(cut.0));
        PartStep(parts, j, done);
        DirectivesStep(done, element);
        if name != "" {
          directives := directives + [Directive(name, TrimSpace(cut.1))];
        }
        done := done + [element];
        j := j + 1;
      }
      assert total == done;
      i := i + 1;
    }
    assert Elements(lines) == done;
  }

  predicate HasDirective(h: Header, names: set<string>) {
    exists d :: d in Directives(Values(h, "Cache-Control")) && d.name in names
  }

  predicate ContainsToken(lines: seq<string>, token: string) {
    exists e :: e in Elements(lines) && EqualFold(e, token)
  }

  /** strings.Trim(value, `"`). */
  function TrimQuotes(s: string): string
    decreases |s|
  {
    if s != "" && s[0] == '"' then TrimQuotes(s[1..])
    else if s != "" && s[|s| - 1] == '"' then TrimQuotes(s[..|s| - 1])
    else s
  }

  predicate RequestBypassesCache(h: Header) {
    || (exists d :: d in Directives(Values(h, "Cache-Control")) &&
          (d.name == "no-cache" || d.name == "no-store" || (d.name == "max-age" && TrimQuotes(d.value) == "0")))
    || ContainsToken(Values(h, "Pragma"), "no-cache")
  }

  const SENSITIVE: set<string> := {
    "Authentication-Info", "Authorization", "Cookie", "Proxy-Authentication-Info", "Proxy-Authorization",
    "Set-Cookie", "Set-Cookie2", "Www-Authenticate" }

  const COOKIES: set<string> := {"Cookie", "Set-Cookie", "Set-Cookie2"}

  predicate ResponseAllowsStorage(request: Header, response: Header, allowedVary: set<string>) {
    && !HasDirective(request, {"no-store"})
    && !HasDirective(response, {"no-cache", "no-store", "private"})
    && !ContainsToken(Values(response, "Pragma"), "no-cache")
    && (forall n :: n in SENSITIVE && n in response ==> HasDirective(response, {"public"}) && n in COOKIES)
    && (forall e :: e in Elements(Values(response, "Vary")) ==>
          Canonical(e) == "" || (Canonical(e) != "*" && Canonical(e) in allowedVary))
  }

  // ---------------------------------------------------------------- the decisions, element by element

  function DirectiveName(element: string): string { ParseDirective(element).name }

  lemma {:induction false} DirectiveIsElement(elements: seq<string>, d: Directive)
    ensures d in DirectivesOf(elements) <==> d.name != "" && exists e :: e in elements && ParseDirective(e) == d
  {
    if elements != [] {
      var front, last := elements[..|elements| - 1], elements[|elements| - 1];
      DirectiveIsElement(front, d);
      assert forall e :: e in elements <==> e in front || e == last;
    }
  }

  lemma HasDirectiveIff(h: Header, names: set<string>)
    requires "" !in names
    ensures HasDirective(h, names) <==>
              exists e :: e in Elements(Values(h, "Cache-Control")) && DirectiveName(e) in names
  {
    var elements := Elements(Values(h, "Cache-Control"));
    if HasDirective(h, names) {
      var d :| d in DirectivesOf(elements) && d.name in names;
      DirectiveIsElement(elements, d);
    }
    if e :| e in elements && DirectiveName(e) in names {
      DirectiveIsElement(elements, ParseDirective(e));
    }
  }

  lemma SaysNothing(h: Header, names: set<string>)
    requires "" !in names
    ensures !HasDirective(h, names) <==>
              forall e :: e in Elements(Values(h, "Cache-Control")) ==> DirectiveName(e) !in names
  {
    HasDirectiveIff(h, names);
  }

  predicate ZeroAge(d: Directive) { d.name == "max-age" && TrimQuotes(d.value) == "0" }

  lemma SaysZero(elements: seq<string>)
    ensures (exists d :: d in DirectivesOf(elements) && ZeroAge(d)) <==>
              exists e :: e in elements && ZeroAge(ParseDirective(e))
  {
    if d :| d in DirectivesOf(elements) && ZeroAge(d) {
      DirectiveIsElement(elements, d);
    }
    if e :| e in elements && ZeroAge(ParseDirective(e)) {
      DirectiveIsElement(elements, ParseDirective(e));
    }
  }

  lemma BypassParts(h: Header)
    ensures RequestBypassesCache(h) <==>
              || HasDirective(h, {"no-cache", "no-store"})
              || (exists d :: d in Directives(Values(h, "Cache-Control")) && ZeroAge(d))
              || ContainsToken(Values(h, "Pragma"), "no-cache")
  {
  }

  /** A request goes around the cache exactly if one element of its Cache-Control lines is no-cache,
      no-store or a max-age of zero, quoted or not, or one of its Pragma lines is no-cache. */
  lemma BypassesIff(h: Header)
    ensures RequestBypassesCache(h) <==>
              || (exists e :: e in Elements(Values(h, "Cache-Control")) && DirectiveName(e) in {"no-cache", "no-store"})
              || (exists e :: e in Elements(Values(h, "Cache-Control")) && DirectiveName(e) == "max-age"
                              && TrimQuotes(ParseDirective(e).value) == "0")
              || (exists e :: e in Elements(Values(h, "Pragma")) && EqualFold(e, "no-cache"))
  {
    HasDirectiveIff(h, {"no-cache", "no-store"});
    SaysZero(Elements(Values(h, "Cache-Control")));
    BypassParts(h);
  }

  /** A response may be stored exactly if no element speaks against it: no-store in the request;
      no-cache, no-store or private in the response; no-cache in its Pragma; a Vary on anything but
      the fields the key covers; a credential field; or a cookie that is not explicitly public. */
  lemma AllowsStorageIff(request: Header, response: Header, allowedVary: set<string>)
    ensures ResponseAllowsStorage(request, response, allowedVary) <==>
              && (forall e :: e in Elements(Values(request, "Cache-Control")) ==> DirectiveName(e) !in {"no-store"})
              && (forall e :: e in Elements(Values(response, "Cache-Control")) ==>
                    DirectiveName(e) !in {"no-cache", "no-store", "private"})
              && (forall e :: e in Elements(Values(response, "Pragma")) ==> !EqualFold(e, "no-cache"))
              && (forall e :: e in Elements(Values(response, "Vary")) ==>
                    Canonical(e) == "" || (Canonical(e) != "*" && Canonical(e) in allowedVary))
              && (forall n :: n in response ==>
                    n !in {"Authentication-Info", "Authorization", "Proxy-Authentication-Info", "Proxy-Authorization",
                           "Www-Authenticate"})
              && ((exists n :: n in response && n in {"Cookie", "Set-Cookie", "Set-Cookie2"}) ==>
                    exists e :: e in Elements(Values(response, "Cache-Control")) && DirectiveName(e) in {"public"})
  {
    SaysNothing(request, {"no-store"});
    SaysNothing(response, {"no-cache", "no-store", "private"});
    HasDirectiveIff(response, {"public"});
    FieldsAllow(response, HasDirective(response, {"public"}));
  }

  lemma FieldsAllow(response: Header, explicit: bool)
    ensures (forall n :: n in SENSITIVE && n in response ==> explicit && n in COOKIES) <==>
              && (forall n :: n in response ==>
                    n !in {"Authentication-Info", "Authorization", "Proxy-Authentication-Info", "Proxy-Authorization",
                           "Www-Authenticate"})
              && ((exists n :: n in response && n in {"Cookie", "Set-Cookie", "Set-Cookie2"}) ==> explicit)
  {
  }

  /** A directive's name: no '=' and no blank. */
  predicate IsWord(s: string) { forall i :: 0 <= i < |s| ==> s[i] != '=' && !IsSpace(s[i]) }

  lemma {:induction false} CutWord(word: string, value: string)
    requires IsWord(word)
    ensures CutEquals(word) == (word, "") && CutEquals(word + "=" + value) == (word, value)
  {
    if word == "" {
      assert ("" + "=" + value)[1..] == value;
    } else {
      CutWord(word[1..], value);
      assert (word + "=" + value)[1..] == word[1..] + "=" + value;
      assert word == [word[0]] + word[1..];
    }
  }

  /** How a directive is read: its name in any case, its value, if any, after the first '='. */
  lemma DirectiveReads(word: string, value: string)
    requires IsWord(word)
    ensures ParseDirective(word) == Directive(ToLower(word), "")
    ensures ParseDirective(word + "=" + value) == Directive(ToLower(word), TrimSpace(value))
  {
    CutWord(word, value);
    TrimmedEnds(word);
  }

  lemma {:induction false} ElementOfLine(lines: seq<string>, i: nat, before: string, element: string, after: string)
    requires i < |lines| && lines[i] == before + "," + (element + "," + after)
    requires TrimSpace(element) == element && ',' !in element
    ensures element in Elements(lines)
  {
    if i > 0 {
      ElementOfLine(lines[1..], i - 1, before, element, after);
    } else {
      SplitConcat(before, element + "," + after);
      SplitConcat(element, after);
      SplitWhole(element);
      TrimAllConcat(Split(before), Split(element + "," + after));
      TrimAllConcat([element], Split(after));
      assert TrimAll([element]) == [element] by { assert [element][1..] == []; }
    }
  }

  lemma {:induction false} SplitWhole(s: string)
    requires ',' !in s
    ensures Split(s) == [s]
  {
    if s != "" {
      SplitWhole(s[1..]);
      assert s == [s[0]] + s[1..];
    }
  }

  /** One element is enough, wherever it stands among the lines and in whatever case it is written. */
  lemma OneElementDecides(h: Header, i: nat, before: string, word: string, after: string)
    requires var lines := Values(h, "Cache-Control");
             i < |lines| && lines[i] == before + "," + (word + "," + after)
    requires IsWord(word) && ',' !in word
    ensures ToLower(word) in {"no-cache", "no-store"} ==> RequestBypassesCache(h)
    ensures ToLower(word) in {"no-cache", "no-store", "private"} ==>
              forall request, allowedVary :: !ResponseAllowsStorage(request, h, allowedVary)
    ensures ToLower(word) == "no-store" ==>
              forall response, allowedVary :: !ResponseAllowsStorage(h, response, allowedVary)
  {
    TrimmedEnds(word);
    ElementOfLine(Values(h, "Cache-Control"), i, before, word, after);
    DirectiveReads(word, "");
    assert DirectiveName(word) == ToLower(word);
    ElementDecides(h, word);
  }

  lemma ElementDecides(h: Header, e: string)
    requires e in Elements(Values(h, "Cache-Control"))
    ensures DirectiveName(e) in {"no-cache", "no-store"} ==> HasDirective(h, {"no-cache", "no-store"})
    ensures DirectiveName(e) in {"no-cache", "no-store"} ==> RequestBypassesCache(h)
    ensures DirectiveName(e) in {"no-cache", "no-store", "private"} ==>
              HasDirective(h, {"no-cache", "no-store", "private"})
    ensures DirectiveName(e) == "no-store" ==> HasDirective(h, {"no-store"})
  {
    DirectiveIsElement(Elements(Values(h, "Cache-Control")), ParseDirective(e));
  }

  /** The fields a Connection header names as hop-by-hop. */
  function NamedConnectionHeaders(h: Header): set<string> {
    set e | e in Elements(Values(h, "Connection")) && Canonical(e) != "" :: Canonical(e)
  }

  // ---------------------------------------------------------------- combining field lines

  /** Every field whose lines are several is sent on one line instead. */
  function Combined(h: Header, ows: string): Header {
    map n | n in h :: if h[n] == [] then [] else [Join(h[n], ows)]
  }

  lemma CombinedElements(h: Header, ows: string, name: string)
    requires IsBlank(ows)
    ensures Elements(Values(Combined(h, ows), name)) == Elements(Values(h, name))
  {
    if Canonical(name) in h && h[Canonical(name)] != [] {
      JoinKeepsElements(h[Canonical(name)], ows);
    }
  }

  lemma CombiningKeepsDirectives(h: Header, ows: string, names: set<string>)
    requires IsBlank(ows)
    ensures HasDirective(Combined(h, ows), names) <==> HasDirective(h, names)
    ensures ContainsToken(Values(Combined(h, ows), "Pragma"), "no-cache") <==>
              ContainsToken(Values(h, "Pragma"), "no-cache")
  {
    CombinedElements(h, ows, "Cache-Control");
    CombinedElements(h, ows, "Pragma");
  }

  lemma CombiningKeepsBypass(h: Header, ows: string)
    requires IsBlank(ows)
    ensures RequestBypassesCache(Combined(h, ows)) <==> RequestBypassesCache(h)
  {
    CombinedElements(h, ows, "Cache-Control");
    CombinedElements(h, ows, "Pragma");
  }

  /** Every decision is a decision about list elements: sending several field lines as one
      comma-joined line changes none of them. */
  lemma CombiningChangesNoDecision(request: Header, response: Header, allowedVary: set<string>, ows: string)
    requires IsBlank(ows)
    ensures RequestBypassesCache(Combined(request, ows)) <==> RequestBypassesCache(request)
    ensures ResponseAllowsStorage(Combined(request, ows), Combined(response, ows), allowedVary)
       <==> ResponseAllowsStorage(request, response, allowedVary)
    ensures NamedConnectionHeaders(Combined(response, ows)) == NamedConnectionHeaders(response)
  {
    CombiningKeepsBypass(request, ows);
    CombiningKeepsDirectives(request, ows, {"no-store"});
    CombiningKeepsDirectives(response, ows, {"no-cache", "no-store", "private"});
    CombiningKeepsDirectives(response, ows, {"public"});
    CombinedElements(response, ows, "Vary");
    CombinedElements(response, ows, "Connection");
  }

  // ---------------------------------------------------------------- filtering headers

  const HOP_BY_HOP: set<string> := {
    "Connection", "Keep-Alive", "Proxy-Authenticate", "Proxy-Authorization", "Proxy-Connection",
    "Te", "Trailer", "Transfer-Encoding", "Upgrade" }

  predicate EndToEnd(h: Header, name: string) {
    Canonical(name) !in HOP_BY_HOP && Canonical(name) !in NamedConnectionHeaders(h)
  }

  /** Names as net/http's parser leaves them. */
  predicate CanonicalNames(h: Header) { forall n :: n in h ==> Canonical(n) == n }

  /** The end-to-end fields of a header with canonical names. */
  function EndToEndFields(h: Header): Header {
    map n | n in h && EndToEnd(h, n) && h[n] != [] :: h[n]
  }

  /** A possible result of ResponseHeaders: names that differ only in case may merge in any order. */
  predicate Filtered(source: Header, target: Header) {
    && CanonicalNames(target)
    && (forall n :: n in target ==> target[n] != [] && EndToEnd(source, n))
    && (forall n :: n in source && EndToEnd(source, n) && source[n] != [] ==> Canonical(n) in target)
    && (CanonicalNames(source) ==> target == EndToEndFields(source))
  }

  /** What filtering has kept while the fields in todo are still to come. */
  ghost predicate FilteredSoFar(source: Header, todo: set<string>, target: Header) {
    && CanonicalNames(target)
    && (forall n :: n in target ==> target[n] != [] && EndToEnd(source, n))
    && (forall n :: n in source && n !in todo && EndToEnd(source, n) && source[n] != [] ==> Canonical(n) in target)
    && (CanonicalNames(source) ==>
          && (forall n :: n in target <==> n in source && n !in todo && EndToEnd(source, n) && source[n] != [])
          && (forall n :: n in target ==> target[n] == source[n]))
  }

  lemma FilterKeeps(source: Header, todo: set<string>, target: Header, name: string)
    requires FilteredSoFar(source, todo, target) && name in todo && name in source
    requires EndToEnd(source, name) && source[name] != []
    ensures var more := (if Canonical(name) in target then target[Canonical(name)] else []) + source[name];
            FilteredSoFar(source, todo - {name}, target[Canonical(name) := more])
  {
    CanonicalTwice(name);
  }

  lemma FilterDrops(source: Header, todo: set<string>, target: Header, name: string)
    requires FilteredSoFar(source, todo, target) && name in todo && name in source
    requires !(EndToEnd(source, name) && source[name] != [])
    ensures FilteredSoFar(source, todo - {name}, target)
  {
  }

  /** ResponseHeaders, over the fields in any order. A name with no lines disappears. */
  method ResponseHeaders(source: Header) returns (target: Header)
    ensures Filtered(source, target)
  {
    target := map[];
    var todo := source.Keys;
    while todo != {}
      invariant todo <= source.Keys
      invariant FilteredSoFar(source, todo, target)
    {
      var name :| name in todo;
      var canonical := Canonical(name);
      if EndToEnd(source, name) && source[name] != [] {
        FilterKeeps(source, todo, target, name);
        target := target[canonical := (if canonical in target then target[canonical] else []) + source[name]];
      } else {
        FilterDrops(source, todo, target, name);
      }
      todo := todo - {name};
    }
  }

  const UNSTORED: set<string> := SENSITIVE + {"Age", "X-N0ding-Cache"}

  /** What the cache writes to an entry's metadata. */
  function CacheMetadataHeaders(h: Header): Header { EndToEndFields(h) - UNSTORED }

  lemma NoConnectionNamesNothing(h: Header)
    requires "Connection" !in h
    ensures NamedConnectionHeaders(h) == {}
  {
    ConnectionIsCanonical();
  }

  /** Filtering, field by field: dropped are the fields without a line, the nine hop-by-hop fields,
      and those an element of the Connection lines names in any letter case; all others are kept. */
  lemma FilteredIff(source: Header, target: Header, n: string)
    requires Filtered(source, target) && CanonicalNames(source)
    ensures n in target <==>
              && n in source && source[n] != [] && n !in HOP_BY_HOP
              && !(n != "" && exists e :: e in Elements(Values(source, "Connection")) && Canonical(e) == n)
    ensures n in target ==> target[n] == source[n]
  {
    NamedIff(source, n);
  }

  lemma NamedIff(h: Header, n: string)
    ensures n in NamedConnectionHeaders(h) <==>
              n != "" && exists e :: e in Elements(Values(h, "Connection")) && Canonical(e) == n
  {
  }

  /** What is left after filtering is end-to-end on its own account. */
  lemma FilteredIsEndToEnd(source: Header, target: Header)
    requires Filtered(source, target)
    ensures EndToEndFields(target - UNSTORED) == target - UNSTORED
  {
    var once := target - UNSTORED;
    forall n | n in target
      ensures n !in HOP_BY_HOP && Canonical(n) == n
    {
      assert EndToEnd(source, n);
    }
    assert "Connection" in HOP_BY_HOP;
    NoConnectionNamesNothing(once);
  }

  /** The proxy filters a response's headers before the store filters them again: the second
      pass finds nothing left to remove, and nothing private survives the first. */
  lemma FilteringTwiceIsFilteringOnce(source: Header, target: Header)
    requires Filtered(source, target)
    ensures CacheMetadataHeaders(target - UNSTORED) == target - UNSTORED
    ensures (target - UNSTORED).Keys !! UNSTORED + HOP_BY_HOP + NamedConnectionHeaders(source)
    ensures CanonicalNames(source) ==> target - UNSTORED == CacheMetadataHeaders(source)
    ensures (target - UNSTORED).Keys !! {"Set-Cookie", "Set-Cookie2", "Cookie", "Authorization", "Authentication-Info",
                                         "Proxy-Authorization", "Proxy-Authentication-Info", "Www-Authenticate", "Age",
                                         "X-N0ding-Cache", "Connection", "Transfer-Encoding", "Upgrade", "Te",
                                         "Trailer", "Keep-Alive", "Proxy-Authenticate", "Proxy-Connection"}
  {
    FilteredIsEndToEnd(source, target);
    assert target - UNSTORED - UNSTORED == target - UNSTORED;
    forall n | n in target
      ensures n !in HOP_BY_HOP + NamedConnectionHeaders(source)
    {
      assert EndToEnd(source, n) && Canonical(n) == n;
    }
  }

  /** A field the proxy sets on filtered headers is kept, with what it was set to, by this filter
      and by the next one. */
  lemma SetFieldSurvives(source: Header, kept: Header, name: string, value: seq<string>)
    requires Filtered(source, kept) && value != []
    requires Canonical(name) == name && name !in HOP_BY_HOP && name !in UNSTORED
    ensures var once := CacheMetadataHeaders(kept[name := value]);
            && name in CacheMetadataHeaders(once) && CacheMetadataHeaders(once)[name] == value
            && CacheMetadataHeaders(once).Keys !! UNSTORED
  {
    assert "Connection" in HOP_BY_HOP;
    ConnectionIsCanonical();
    assert "Connection" in kept ==> EndToEnd(source, "Connection");
    var told := kept[name := value];
    NoConnectionNamesNothing(told);
    NoConnectionNamesNothing(CacheMetadataHeaders(told));
  }

  /** One capital and small letters after it. */
  lemma WordIsCanonical(s: string)
    requires s != "" && 'A' <= s[0] <= 'Z' && forall i :: 1 <= i < |s| ==> 'a' <= s[i] <= 'z'
    ensures Canonical(s) == s
  {
    LowerTail(s[1..]);
    TokenLetters(s);
    assert s == [s[0]] + s[1..];
  }

  lemma ConnectionIsCanonical()
    ensures Canonical("Connection") == "Connection"
  {
    WordIsCanonical("Connection");
  }

  lemma TokenLetters(s: string)
    requires forall i :: 0 <= i < |s| ==> 'a' <= s[i] <= 'z' || 'A' <= s[i] <= 'Z'
    ensures IsToken(s)
  {
  }

  lemma {:induction false} LowerTail(s: string)
    requires forall i :: 0 <= i < |s| ==> 'a' <= s[i] <= 'z'
    ensures Capitalise(s, false) == s
  {
    if s != "" { LowerTail(s[1..]); }
  }
}
