/** PyPI project names: PEP 503 normalisation as the proxy does it, and where it is the PEP's. Unlike
    the PEP's expression the proxy drops separators at the ends and rejects every other character. */
module ProjectNames {
  import opened Text

  predicate IsSeparator(c: char) { c == '-' || c == '_' || c == '.' }
  predicate IsNameChar(c: char) { 'a' <= c <= 'z' || '0' <= c <= '9' }

  /** The non-empty runs between separators, left to right. */
  function Words(s: string): (ws: seq<string>)
    ensures s != "" && !IsSeparator(s[|s| - 1]) ==> ws != []
    ensures forall i :: 0 <= i < |ws| ==> ws[i] != ""
  {
    if s == "" then []
    else
      var front, c := s[..|s| - 1], s[|s| - 1];
      var ws := Words(front);
      if IsSeparator(c) then ws
      else if front != "" && !IsSeparator(front[|front| - 1]) then ws[..|ws| - 1] + [ws[|ws| - 1] + [c]]
      else ws + [[c]]
  }

  function JoinDash(ws: seq<string>): string {
    if ws == [] then "" else if |ws| == 1 then ws[0] else JoinDash(ws[..|ws| - 1]) + "-" + ws[|ws| - 1]
  }

  predicate Acceptable(s: string) { forall i :: 0 <= i < |s| ==> IsSeparator(s[i]) || IsNameChar(s[i]) }

  /** Non-empty runs of a-z and 0-9 joined by single dashes; empty for an unacceptable name. */
  function Normalized(name: string): string {
    var s := TrimSpace(ToLower(name));
    if Acceptable(s) then Squeezed(s) else ""
  }

  /** Whether the words of a prefix end in an open word, to which a letter would be added. */
  predicate Open(s: string) { s != "" && !IsSeparator(s[|s| - 1]) }

  lemma WordsStep(s: string, c: char)
    ensures var ws := Words(s);
            && (IsSeparator(c) ==> Words(s + [c]) == ws)
            && (!IsSeparator(c) && Open(s) ==> ws != [] && Words(s + [c]) == ws[..|ws| - 1] + [ws[|ws| - 1] + [c]])
            && (!IsSeparator(c) && !Open(s) ==> Words(s + [c]) == ws + [[c]])
  {
    assert (s + [c])[..|s|] == s && (s + [c])[|s|] == c;
  }

  lemma JoinExtends(ws: seq<string>, c: char)
    requires ws != []
    ensures JoinDash(ws[..|ws| - 1] + [ws[|ws| - 1] + [c]]) == JoinDash(ws) + [c]
  {
    var n := |ws| - 1;
    var longer := ws[..n] + [ws[n] + [c]];
    assert longer[..n] == ws[..n];
  }

  lemma JoinAppends(ws: seq<string>, w: string)
    ensures JoinDash(ws + [w]) == if ws == [] then w else JoinDash(ws) + "-" + w
  {
    assert (ws + [w])[..|ws|] == ws;
  }

  lemma {:induction false} JoinIsEmpty(ws: seq<string>)
    requires forall i :: 0 <= i < |ws| ==> ws[i] != ""
    ensures JoinDash(ws) == "" <==> ws == []
  {
    if |ws| == 1 { assert ws[0] != ""; }
  }

  function Squeezed(s: string): string { JoinDash(Words(s)) }

  /** A separator after a first word is remembered until the next letter. */
  predicate Pending(s: string) { Squeezed(s) != "" && s != "" && IsSeparator(s[|s| - 1]) }

  /** What one more character does to the normalised prefix. */
  lemma SqueezeStep(s: string, c: char)
    ensures Squeezed(s + [c])
         == if IsSeparator(c) then Squeezed(s)
            else Squeezed(s) + (if Pending(s) then "-" else "") + [c]
  {
    var ws := Words(s);
    WordsStep(s, c);
    JoinIsEmpty(ws);
    if !IsSeparator(c) {
      if Open(s) { JoinExtends(ws, c); } else { JoinAppends(ws, [c]); }
    }
  }

  /** normalizeProjectName. */
  method NormalizeProjectName(name: string) returns (r: string)
    ensures r == Normalized(name)
  {
    r := Squeeze(TrimSpace(ToLower(name)));
  }

  /** The prefix of s that ends with its i-th character. */
  lemma SqueezeNext(s: string, i: nat, next: nat)
    requires i < |s| && next == i + 1
    ensures Squeezed(s[..next])
         == if IsSeparator(s[i]) then Squeezed(s[..i])
            else Squeezed(s[..i]) + (if Pending(s[..i]) then "-" else "") + [s[i]]
    ensures Pending(s[..next]) <==> IsSeparator(s[i]) && Squeezed(s[..i]) != ""
    ensures Acceptable(s[..next]) <==> Acceptable(s[..i]) && (IsSeparator(s[i]) || IsNameChar(s[i]))
  {
    SqueezeStep(s[..i], s[i]);
    assert s[..next] == s[..i] + [s[i]];
    assert forall j :: 0 <= j < i ==> s[..next][j] == s[..i][j];
  }

  /** One pass with a pending separator. */
  method Squeeze(s: string) returns (builder: string)
    ensures builder == if Acceptable(s) then Squeezed(s) else ""
  {
    builder := "";
    var separator, i := false, 0;
    while i < |s|
      invariant i <= |s| && Acceptable(s[..i])
      invariant builder == Squeezed(s[..i]) && separator == Pending(s[..i])
    {
      ghost var next: nat := i + 1;
      SqueezeNext(s, i, next);
      if IsSeparator(s[i]) {
        separator := |builder| > 0;
      } else {
        if !IsNameChar(s[i]) {
          return "";
        }
        if separator {
          builder, separator := builder + "-", false;
        }
        builder := builder + [s[i]];
      }
      i := i + 1;
    }
    assert s[..i] == s;
  }

  // ---------------------------------------------------------------- idempotence

  predicate IsWord(w: string) { w != "" && forall i :: 0 <= i < |w| ==> IsNameChar(w[i]) }
  predicate AllWords(ws: seq<string>) { forall i :: 0 <= i < |ws| ==> IsWord(ws[i]) }

  lemma {:induction false} WordsAreWords(s: string)
    requires Acceptable(s)
    ensures AllWords(Words(s))
    decreases |s|
  {
    if s != "" { WordsAreWords(s[..|s| - 1]); }
  }

  lemma LongerWord(s: string, front: string, c: char, ws: seq<string>)
    requires Words(s + front) == ws + [front] && IsWord(front) && IsNameChar(c)
    ensures Words(s + (front + [c])) == ws + [front + [c]]
  {
    var longer := s + front;
    assert s + (front + [c]) == longer + [c];
    assert longer[|longer| - 1] == front[|front| - 1] && IsNameChar(front[|front| - 1]);
    WordsStep(longer, c);
    assert (ws + [front])[..|ws|] == ws;
  }

  lemma LastOfWord(w: string)
    requires IsWord(w)
    ensures var front, c := w[..|w| - 1], w[|w| - 1];
            w == front + [c] && IsNameChar(c) && (front == "" || IsWord(front))
  {
  }

  lemma FirstLetter(s: string, c: char)
    requires !Open(s) && IsNameChar(c)
    ensures Words(s + ("" + [c])) == Words(s) + ["" + [c]]
  {
    assert "" + [c] == [c];
    WordsStep(s, c);
  }

  lemma {:induction false} WordsOfWord(s: string, w: string)
    requires IsWord(w) && !Open(s)
    ensures Words(s + w) == Words(s) + [w]
    decreases |w|
  {
    var front, c := w[..|w| - 1], w[|w| - 1];
    LastOfWord(w);
    if front == "" {
      FirstLetter(s, c);
    } else {
      WordsOfWord(s, front);
      LongerWord(s, front, c, Words(s));
    }
  }

  lemma WordAfterDash(s: string, w: string)
    requires IsWord(w)
    ensures Words(s + "-" + w) == Words(s) + [w]
  {
    var dashed := s + "-";
    assert dashed[..|dashed| - 1] == s && dashed[|dashed| - 1] == '-';
    WordsOfWord(dashed, w);
  }

  lemma OneMoreWord(front: seq<string>, w: string)
    requires Words(JoinDash(front)) == front && IsWord(w)
    ensures Words(JoinDash(front + [w])) == front + [w]
  {
    JoinAppends(front, w);
    if front == [] {
      WordsOfWord("", w);
      assert "" + w == w;
    } else {
      WordAfterDash(JoinDash(front), w);
    }
  }

  /** Joining words and splitting again gives the words back. */
  lemma {:induction false} WordsOfJoin(ws: seq<string>)
    requires AllWords(ws)
    ensures Words(JoinDash(ws)) == ws
    decreases |ws|
  {
    if ws != [] {
      var front, w := ws[..|ws| - 1], ws[|ws| - 1];
      assert ws == front + [w];
      WordsOfJoin(front);
      OneMoreWord(front, w);
    }
  }

  lemma {:induction false} JoinHasNoSpace(ws: seq<string>)
    requires AllWords(ws)
    ensures forall i :: 0 <= i < |JoinDash(ws)| ==> IsNameChar(JoinDash(ws)[i]) || JoinDash(ws)[i] == '-'
    decreases |ws|
  {
    if |ws| == 1 { assert IsWord(ws[0]); }
    if |ws| > 1 { JoinHasNoSpace(ws[..|ws| - 1]); assert IsWord(ws[|ws| - 1]); }
  }

  lemma CleanChar(c: char)
    requires IsNameChar(c) || c == '-'
    ensures LowerChar(c) == c && !IsSpace(c)
  {
  }

  lemma CleanIsFixed(s: string)
    requires forall i :: 0 <= i < |s| ==> IsNameChar(s[i]) || s[i] == '-'
    ensures TrimSpace(ToLower(s)) == s
  {
    forall i | 0 <= i < |s|
      ensures LowerChar(s[i]) == s[i] && !IsSpace(s[i])
    {
      CleanChar(s[i]);
    }
    LowerIsFixed(s);
    TrimmedEnds(s);
  }

  lemma CleanIsAcceptable(s: string)
    requires forall i :: 0 <= i < |s| ==> IsNameChar(s[i]) || s[i] == '-'
    ensures Acceptable(s)
  {
  }

  /** What a normalised name looks like: small letters and digits, single dashes strictly inside. */
  predicate Canonical(s: string) {
    && (forall i :: 0 <= i < |s| ==> 'a' <= s[i] <= 'z' || '0' <= s[i] <= '9' || s[i] == '-')
    && (s != "" ==> s[0] != '-' && s[|s| - 1] != '-')
    && (forall i :: 0 <= i < |s| - 1 ==> !(s[i] == '-' && s[i + 1] == '-'))
  }

  lemma WordIsCanonical(s: string, w: string)
    requires Canonical(s) && IsWord(w)
    ensures Canonical(w) && (s != "" ==> Canonical(s + "-" + w))
  {
    assert forall i :: 0 <= i < |w| ==> IsNameChar(w[i]);
    if s != "" {
      var t := s + "-" + w;
      assert forall i :: 0 <= i < |t| ==> t[i] == if i < |s| then s[i] else if i == |s| then '-' else w[i - |s| - 1];
    }
  }

  lemma {:induction false} JoinIsCanonical(ws: seq<string>)
    requires AllWords(ws)
    ensures Canonical(JoinDash(ws))
    decreases |ws|
  {
    if ws != [] {
      var front, w := ws[..|ws| - 1], ws[|ws| - 1];
      JoinIsCanonical(front);
      WordIsCanonical(JoinDash(front), w);
      JoinIsEmpty(front);
    }
  }

  /** Every normalised name is canonical, and it is empty exactly if the name has a character that
      is no letter, digit or separator, or nothing but separators. */
  lemma NormalizedIsCanonical(name: string)
    ensures Canonical(Normalized(name))
    ensures var s := TrimSpace(ToLower(name));
            Normalized(name) == "" <==>
              || (exists i :: 0 <= i < |s| && !('a' <= s[i] <= 'z' || '0' <= s[i] <= '9' || s[i] in {'-', '_', '.'}))
              || (forall i :: 0 <= i < |s| ==> s[i] in {'-', '_', '.'})
  {
    var s := TrimSpace(ToLower(name));
    SqueezedIsEmpty(s);
    if Acceptable(s) {
      WordsAreWords(s);
      JoinIsCanonical(Words(s));
    }
  }

  /** Normalising twice is normalising once. */
  lemma NormalizedIsIdempotent(name: string)
    ensures Normalized(Normalized(name)) == Normalized(name)
  {
    var s := TrimSpace(ToLower(name));
    if Acceptable(s) {
      WordsAreWords(s);
      WordsOfJoin(Words(s));
      JoinHasNoSpace(Words(s));
      CleanIsFixed(JoinDash(Words(s)));
      CleanIsAcceptable(JoinDash(Words(s)));
    } else {
      assert ToLower("") == "";
      assert Words("") == [];
      CleanIsFixed("");
    }
  }

  /** Two acceptable names normalise alike exactly if they have the same words: separators count
      only as boundaries, whichever they are and however many. */
  lemma SameNameIffSameWords(a: string, b: string)
    requires Acceptable(TrimSpace(ToLower(a))) && Acceptable(TrimSpace(ToLower(b)))
    ensures Normalized(a) == Normalized(b) <==> Words(TrimSpace(ToLower(a))) == Words(TrimSpace(ToLower(b)))
  {
    var x, y := Words(TrimSpace(ToLower(a))), Words(TrimSpace(ToLower(b)));
    WordsAreWords(TrimSpace(ToLower(a)));
    WordsAreWords(TrimSpace(ToLower(b)));
    WordsOfJoin(x);
    WordsOfJoin(y);
  }

  // ---------------------------------------------------------------- PEP 503

  /** re.sub(r"[-_.]+", "-", s): every run of separators becomes one dash. */
  function Collapse(s: string): string {
    if s == "" then ""
    else
      var front, c := s[..|s| - 1], s[|s| - 1];
      if !IsSeparator(c) then Collapse(front) + [c]
      else if front != "" && IsSeparator(front[|front| - 1]) then Collapse(front)
      else Collapse(front) + "-"
  }

  /** The normalised name of PEP 503. */
  function PepNormalized(name: string): string { ToLower(Collapse(name)) }

  lemma CollapseStep(s: string, c: char)
    ensures Collapse(s + [c])
         == if !IsSeparator(c) then Collapse(s) + [c]
            else if s != "" && !Open(s) then Collapse(s) else Collapse(s) + "-"
  {
    assert (s + [c])[..|s|] == s && (s + [c])[|s|] == c;
  }

  lemma {:induction false} LowerConcat(a: string, b: string)
    ensures ToLower(a + b) == ToLower(a) + ToLower(b)
  {
    if a == "" {
      assert a + b == b;
    } else {
      assert (a + b)[1..] == a[1..] + b;
      LowerConcat(a[1..], b);
    }
  }

  lemma LowerKeepsSeparators(s: string, c: char)
    ensures IsSeparator(LowerChar(c)) <==> IsSeparator(c)
    ensures Open(ToLower(s)) <==> Open(s)
  {
  }

  lemma LowerOneMore(s: string, c: char)
    ensures ToLower(s + [c]) == ToLower(s) + [LowerChar(c)]
  {
    LowerConcat(s, [c]);
    assert ToLower([c]) == [LowerChar(c)];
  }

  lemma CollapseLowerStep(s: string, lower: string, c: char)
    requires |lower| == |s| && (Open(lower) <==> Open(s)) && (IsSeparator(LowerChar(c)) <==> IsSeparator(c))
    requires ToLower(Collapse(s)) == Collapse(lower)
    ensures ToLower(Collapse(s + [c])) == Collapse(lower + [LowerChar(c)])
  {
    CollapseStep(s, c);
    CollapseStep(lower, LowerChar(c));
    if !IsSeparator(c) {
      LowerOneMore(Collapse(s), c);
    } else if s == "" || Open(s) {
      LowerOneMore(Collapse(s), '-');
      assert "-" == ['-'];
    }
  }

  /** Letter case and separators do not meet. */
  lemma {:induction false} CollapseThenLower(s: string)
    ensures ToLower(Collapse(s)) == Collapse(ToLower(s))
    decreases |s|
  {
    if s != "" {
      var front, c := s[..|s| - 1], s[|s| - 1];
      assert s == front + [c];
      CollapseThenLower(front);
      LowerKeepsSeparators(front, c);
      CollapseLowerStep(front, ToLower(front), c);
      LowerOneMore(front, c);
    }
  }

  predicate AllSeparators(s: string) { forall i :: 0 <= i < |s| ==> IsSeparator(s[i]) }

  lemma {:induction false} SqueezedIsEmpty(s: string)
    ensures Squeezed(s) == "" <==> AllSeparators(s)
    decreases |s|
  {
    if s != "" {
      var front, c := s[..|s| - 1], s[|s| - 1];
      assert s == front + [c];
      SqueezedIsEmpty(front);
      SqueezeStep(front, c);
    }
  }

  /** The dash of a leading separator run before a first word, and that of a trailing run. */
  function Lead(s: string): string { if s != "" && IsSeparator(s[0]) && Squeezed(s) != "" then "-" else "" }
  function Trail(s: string): string { if s != "" && !Open(s) then "-" else "" }

  lemma LeadStep(s: string, c: char)
    ensures Squeezed(s) != "" ==> Lead(s + [c]) == Lead(s)
    ensures Squeezed(s) == "" && !IsSeparator(c) ==> Lead(s + [c]) == Trail(s)
    ensures Squeezed(s) == "" && IsSeparator(c) ==> Lead(s + [c]) == ""
  {
    SqueezeStep(s, c);
    SqueezedIsEmpty(s);
    if s != "" { assert (s + [c])[0] == s[0]; }
  }

  lemma SeparatorStep(s: string, c: char)
    requires Collapse(s) == Lead(s) + Squeezed(s) + Trail(s) && IsSeparator(c)
    ensures Collapse(s + [c]) == Lead(s + [c]) + Squeezed(s + [c]) + Trail(s + [c])
  {
    CollapseStep(s, c);
    SqueezeStep(s, c);
    LeadStep(s, c);
    SqueezedIsEmpty(s);
  }

  lemma TrailIsPending(s: string)
    requires Squeezed(s) != ""
    ensures Trail(s) == if Pending(s) then "-" else ""
  {
    SqueezedIsEmpty(s);
  }

  lemma Regroup(whole: string, a: string, b: string, t: string, c: string, longer: string)
    requires whole == a + b + t && longer == b + t + c
    ensures whole + c == a + longer + ""
  {
  }

  lemma LetterStep(s: string, c: char)
    requires Collapse(s) == Lead(s) + Squeezed(s) + Trail(s) && !IsSeparator(c)
    ensures Collapse(s + [c]) == Lead(s + [c]) + Squeezed(s + [c]) + Trail(s + [c])
  {
    CollapseStep(s, c);
    SqueezeStep(s, c);
    LeadStep(s, c);
    assert Trail(s + [c]) == "";
    if Squeezed(s) != "" {
      TrailIsPending(s);
      Regroup(Collapse(s), Lead(s), Squeezed(s), Trail(s), [c], Squeezed(s + [c]));
    } else {
      FirstLetterStep(Collapse(s), Lead(s), Trail(s), [c], Squeezed(s + [c]));
    }
  }

  lemma FirstLetterStep(whole: string, a: string, t: string, c: string, longer: string)
    requires whole == a + "" + t && a == "" && longer == c
    ensures whole + c == t + longer + ""
  {
  }

  /** The PEP's form is the proxy's between the dashes of leading and trailing separators. */
  lemma {:induction false} CollapseIsSqueezed(s: string)
    ensures Collapse(s) == Lead(s) + Squeezed(s) + Trail(s)
    decreases |s|
  {
    if s != "" {
      var front, c := s[..|s| - 1], s[|s| - 1];
      assert s == front + [c];
      CollapseIsSqueezed(front);
      if IsSeparator(c) { SeparatorStep(front, c); } else { LetterStep(front, c); }
    }
  }

  lemma {:induction false} CollapseKeepsLetters(s: string, i: nat)
    requires i < |s| && !IsSeparator(s[i])
    ensures s[i] in Collapse(s)
    decreases |s|
  {
    var front, c := s[..|s| - 1], s[|s| - 1];
    assert s == front + [c];
    CollapseStep(front, c);
    if i < |s| - 1 { CollapseKeepsLetters(front, i); }
  }

  /** The names the PEP's authors mean: letters and digits with separators strictly inside. */
  predicate PepName(name: string) {
    var s := ToLower(name);
    Acceptable(s) && (s == "" || (!IsSeparator(s[0]) && !IsSeparator(s[|s| - 1])))
  }

  lemma AcceptableIsTrimmed(s: string)
    requires Acceptable(s)
    ensures TrimSpace(s) == s
  {
    TrimmedEnds(s);
  }

  /** A name whose two forms agree has no other characters. */
  lemma AgreeingIsAcceptable(s: string)
    requires (if Acceptable(TrimSpace(s)) then Squeezed(TrimSpace(s)) else "") == Collapse(s)
    ensures Acceptable(s)
  {
    var words := Words(TrimSpace(s));
    if Acceptable(TrimSpace(s)) {
      WordsAreWords(TrimSpace(s));
      JoinHasNoSpace(words);
    }
    forall i | 0 <= i < |s|
      ensures IsSeparator(s[i]) || IsNameChar(s[i])
    {
      if !IsSeparator(s[i]) { CollapseKeepsLetters(s, i); }
    }
  }

  /** Where the proxy normalises as PEP 503 does: exactly at names of letters, digits and separators
      that neither start nor end with a separator, and at the empty name. */
  lemma NormalizedIsPepIff(name: string)
    ensures Normalized(name) == PepNormalized(name) <==> PepName(name)
  {
    var s := ToLower(name);
    CollapseThenLower(name);
    CollapseIsSqueezed(s);
    SqueezedIsEmpty(s);
    if Acceptable(s) {
      AcceptableIsTrimmed(s);
      assert |Collapse(s)| == |Lead(s)| + |Squeezed(s)| + |Trail(s)|;
    } else if Normalized(name) == PepNormalized(name) {
      AgreeingIsAcceptable(s);
    }
  }

  /** The shortest name at which they differ by an end separator. */
  lemma LeadingDashDiffers()
    ensures Normalized("-a") == "a" && PepNormalized("-a") == "-a"
  {
    var s := "-a";
    assert s == "-" + ['a'] && ToLower(s) == s;
    CollapseStep("-", 'a');
    CollapseStep("", '-');
    assert "" + "-" == "-";
    SqueezeStep("-", 'a');
    SqueezedIsEmpty("-");
    AcceptableIsTrimmed(s);
  }
}
