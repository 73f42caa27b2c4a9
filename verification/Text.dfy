/** The string operations of Go's library that the policies rest on. */
module Text {
  import opened Basics

  /** unicode.IsSpace. */
  predicate IsSpace(c: char) {
    || c == ' ' || ('\U{0009}' <= c <= '\U{000d}') || c == '\U{0085}' || c == '\U{00a0}' || c == '\U{1680}'
    || ('\U{2000}' <= c <= '\U{200a}') || c == '\U{2028}' || c == '\U{2029}' || c == '\U{202f}'
    || c == '\U{205f}' || c == '\U{3000}'
  }

  predicate IsBlank(s: string) { forall i :: 0 <= i < |s| ==> IsSpace(s[i]) }

  function TrimLeft(s: string): string {
    if s != "" && IsSpace(s[0]) then TrimLeft(s[1..]) else s
  }

  function TrimRight(s: string): string {
    if s != "" && IsSpace(s[|s| - 1]) then TrimRight(s[..|s| - 1]) else s
  }

  function TrimSpace(s: string): string { TrimRight(TrimLeft(s)) }

  lemma {:induction false} TrimLeadingBlank(ows: string, s: string)
    requires IsBlank(ows)
    ensures TrimSpace(ows + s) == TrimSpace(s)
  {
    if ows == "" {
      assert ows + s == s;
    } else {
      assert (ows + s)[1..] == ows[1..] + s;
      TrimLeadingBlank(ows[1..], s);
    }
  }

  lemma TrimmedEnds(s: string)
    ensures var t := TrimSpace(s); t != "" ==> !IsSpace(t[0]) && !IsSpace(t[|t| - 1])
    ensures TrimSpace(s) == s <==> s == "" || (!IsSpace(s[0]) && !IsSpace(s[|s| - 1]))
  {
    TrimLeftEnds(s);
    TrimRightEnds(TrimLeft(s));
  }

  lemma {:induction false} TrimLeftEnds(s: string)
    ensures TrimLeft(s) != "" ==> !IsSpace(TrimLeft(s)[0])
    ensures |TrimLeft(s)| <= |s|
    ensures TrimLeft(s) == s <==> s == "" || !IsSpace(s[0])
  {
    if s != "" && IsSpace(s[0]) { TrimLeftEnds(s[1..]); }
  }

  lemma {:induction false} TrimRightEnds(s: string)
    ensures TrimRight(s) <= s
    ensures TrimRight(s) != "" ==> !IsSpace(TrimRight(s)[|TrimRight(s)| - 1])
    ensures TrimRight(s) == s <==> s == "" || !IsSpace(s[|s| - 1])
  {
    if s != "" && IsSpace(s[|s| - 1]) { TrimRightEnds(s[..|s| - 1]); }
  }

  predicate IsDigit(c: char) { '0' <= c <= '9' }

  predicate AllDigits(s: string) { forall i :: 0 <= i < |s| ==> IsDigit(s[i]) }

  /** The value of a string of decimal digits. */
  function DigitsValue(s: string): (n: nat)
    requires AllDigits(s)
  {
    if s == "" then 0
    else
      assert IsDigit(s[|s| - 1]);
      10 * DigitsValue(s[..|s| - 1]) + (s[|s| - 1] as int - '0' as int)
  }

  /** strconv.ParseInt in base 10, before its range check: an optional sign and at least one digit. */
  function ParseDecimal(s: string): Option<int> {
    var digits := if s != "" && (s[0] == '+' || s[0] == '-') then s[1..] else s;
    if digits == "" || !AllDigits(digits) then None
    else
      var value: int := DigitsValue(digits);
      Some(if s[0] == '-' then -value else value)
  }

  /** strconv.Itoa of a natural number. */
  function Decimal(n: nat): (s: string)
    ensures s != "" && AllDigits(s)
  {
    var digit := [('0' as int + n % 10) as char];
    if n < 10 then digit else Decimal(n / 10) + digit
  }

  lemma {:induction false} DecimalValue(n: nat)
    ensures DigitsValue(Decimal(n)) == n
  {
    var s := Decimal(n);
    assert s[..|s| - 1] == if n < 10 then "" else Decimal(n / 10);
    if n >= 10 { DecimalValue(n / 10); }
  }

  lemma ParseOfDecimal(n: nat)
    ensures ParseDecimal(Decimal(n)) == Some(n)
  {
    var s := Decimal(n);
    assert IsDigit(s[0]);
    DecimalValue(n);
  }

  /** A sign is read as one, and nothing but an optional sign and digits is a number. */
  lemma ParseOfSigned(n: nat)
    ensures ParseDecimal("-" + Decimal(n)) == Some(0 - n as int) && ParseDecimal("+" + Decimal(n)) == Some(n)
    ensures ParseDecimal("-") == None && ParseDecimal("") == None
  {
    DecimalValue(n);
    assert ("-" + Decimal(n))[1..] == Decimal(n) && ("+" + Decimal(n))[1..] == Decimal(n);
  }

  predicate EndsWith(s: string, tail: string) { |tail| <= |s| && s[|s| - |tail|..] == tail }

  // ---------------------------------------------------------------- letter case

  /** unicode.ToLower as far as it can reach an ASCII letter: besides A-Z, the Kelvin sign and
      the dotted capital I. */
  function LowerChar(c: char): (r: char)
    ensures 'A' <= c <= 'Z' ==> 'a' <= r <= 'z'
  {
    if 'A' <= c <= 'Z' then c + ('a' - 'A')
    else if c == '\U{212a}' then 'k'
    else if c == '\U{0130}' then 'i'
    else c
  }

  function ToLower(s: string): (r: string)
    ensures |r| == |s|
    ensures forall i :: 0 <= i < |s| ==> r[i] == LowerChar(s[i])
  {
    if s == "" then "" else [LowerChar(s[0])] + ToLower(s[1..])
  }

  lemma LowerIsFixed(s: string)
    requires forall i :: 0 <= i < |s| ==> LowerChar(s[i]) == s[i]
    ensures ToLower(s) == s
  {
  }

  lemma LowerTwice(s: string)
    ensures forall i :: 0 <= i < |s| ==> LowerChar(ToLower(s)[i]) == ToLower(s)[i]
  {
  }

  /** Simple case folding onto ASCII: the Kelvin sign folds to k and the long s to s. */
  function FoldChar(c: char): char {
    if 'A' <= c <= 'Z' then c + ('a' - 'A')
    else if c == '\U{212a}' then 'k'
    else if c == '\U{017f}' then 's'
    else c
  }

  predicate EqualFold(a: string, b: string) {
    |a| == |b| && forall i :: 0 <= i < |a| ==> FoldChar(a[i]) == FoldChar(b[i])
  }

  // ---------------------------------------------------------------- lists of fields

  /** strings.Split(s, ","). */
  function Split(s: string): (r: seq<string>)
    ensures |r| >= 1
  {
    if s == "" then [""] else Extend(s[0], Split(s[1..]))
  }

  function Extend(c: char, rest: seq<string>): (r: seq<string>)
    requires |rest| >= 1
    ensures |r| >= 1
  {
    if c == ',' then [""] + rest else [[c] + rest[0]] + rest[1..]
  }

  lemma ExtendConcat(c: char, rest: seq<string>, tail: seq<string>)
    requires |rest| >= 1
    ensures Extend(c, rest + tail) == Extend(c, rest) + tail
  {
    assert (rest + tail)[1..] == rest[1..] + tail;
  }

  lemma {:induction false} SplitConcat(a: string, b: string)
    ensures Split(a + "," + b) == Split(a) + Split(b)
  {
    var s := a + "," + b;
    if a == "" {
      assert s[0] == ',' && s[1..] == b;
    } else {
      assert s[0] == a[0];
      assert s[1..] == a[1..] + "," + b;
      SplitConcat(a[1..], b);
      ExtendConcat(a[0], Split(a[1..]), Split(b));
    }
  }

  lemma {:induction false} SplitBlank(ows: string, b: string)
    requires IsBlank(ows)
    ensures Split(ows + b) == [ows + Split(b)[0]] + Split(b)[1..]
  {
    if ows == "" {
      assert ows + b == b && ows + Split(b)[0] == Split(b)[0];
    } else {
      assert (ows + b)[1..] == ows[1..] + b;
      SplitBlank(ows[1..], b);
      assert [ows[0]] + (ows[1..] + Split(b)[0]) == ows + Split(b)[0];
    }
  }

  function TrimAll(parts: seq<string>): seq<string> {
    if parts == [] then [] else [TrimSpace(parts[0])] + TrimAll(parts[1..])
  }

  lemma {:induction false} TrimAllConcat(a: seq<string>, b: seq<string>)
    ensures TrimAll(a + b) == TrimAll(a) + TrimAll(b)
  {
    if a == [] {
      assert a + b == b;
    } else {
      assert (a + b)[1..] == a[1..] + b;
      TrimAllConcat(a[1..], b);
    }
  }

  /** The list elements of a field that arrived on several lines. */
  function Elements(lines: seq<string>): seq<string> {
    if lines == [] then [] else TrimAll(Split(lines[0])) + Elements(lines[1..])
  }

  /** The same field sent on one line: section 5.3 of RFC 9110, with any blank after the comma. */
  function Join(lines: seq<string>, ows: string): string
    requires lines != []
  {
    if |lines| == 1 then lines[0] else lines[0] + "," + (ows + Join(lines[1..], ows))
  }

  lemma {:induction false} JoinKeepsElements(lines: seq<string>, ows: string)
    requires lines != [] && IsBlank(ows)
    ensures Elements([Join(lines, ows)]) == Elements(lines)
  {
    var joined := Join(lines, ows);
    assert Elements([joined]) == TrimAll(Split(joined)) + Elements([]);
    if |lines| == 1 {
      assert lines[1..] == [];
    } else {
      var tail := Join(lines[1..], ows);
      SplitConcat(lines[0], ows + tail);
      TrimAllConcat(Split(lines[0]), Split(ows + tail));
      SplitBlank(ows, tail);
      TrimLeadingBlank(ows, Split(tail)[0]);
      assert TrimAll(Split(ows + tail)) == TrimAll(Split(tail));
      JoinKeepsElements(lines[1..], ows);
      assert Elements([tail]) == TrimAll(Split(tail)) + Elements([]);
    }
  }
}
