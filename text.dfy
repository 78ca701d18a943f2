/** Java string operations the library relies on: ASCII case mapping,
    character counting, joining, searching, trimming, replacing and decimal
    rendering of integers. */
module Text {

  // ---------------------------------------------------------------------
  // Characters. Java's toUpperCase/toLowerCase are modelled on ASCII letters;
  // every other character maps to itself.
  // ---------------------------------------------------------------------

  predicate IsUpperAscii(c: char) { 'A' <= c <= 'Z' }

  predicate IsLowerAscii(c: char) { 'a' <= c <= 'z' }

  function ToUpper(c: char): (r: char)
    ensures !IsLowerAscii(r)
  {
    if IsLowerAscii(c) then (c as int - 32) as char else c
  }

  function ToLower(c: char): (r: char)
    ensures !IsUpperAscii(r)
    ensures r == '_' <==> c == '_'
  {
    if IsUpperAscii(c) then (c as int + 32) as char else c
  }

  /** Lower-casing undoes upper-casing on every character that is not an
      upper-case letter, and the other way round. */
  lemma {:induction false} CaseInverse(c: char)
    ensures !IsUpperAscii(c) ==> ToLower(ToUpper(c)) == c
    ensures !IsLowerAscii(c) ==> ToUpper(ToLower(c)) == c
  {
  }

  // ---------------------------------------------------------------------
  // Counting occurrences of a character.
  // ---------------------------------------------------------------------

  function Count(s: string, c: char): nat
  {
    if |s| == 0 then 0
    else Count(s[..|s| - 1], c) + (if s[|s| - 1] == c then 1 else 0)
  }

  lemma {:induction false} ConcatAssoc(x: string, y: string, z: string)
    ensures (x + y) + z == x + (y + z)
  {
  }

  lemma {:induction false} CountAppend(a: string, b: string, c: char)
    ensures Count(a + b, c) == Count(a, c) + Count(b, c)
  {
    if |b| == 0 {
      assert a + b == a;
    } else {
      assert (a + b)[..|a + b| - 1] == a + b[..|b| - 1];
      CountAppend(a, b[..|b| - 1], c);
    }
  }

  lemma {:induction false} CountZero(s: string, c: char)
    ensures Count(s, c) == 0 <==> c !in s
  {
    if |s| > 0 {
      CountZero(s[..|s| - 1], c);
      assert s == s[..|s| - 1] + [s[|s| - 1]];
    }
  }

  /** Total number of occurrences of c over a list of strings. */
  function CountAll(parts: seq<string>, c: char): nat
  {
    if |parts| == 0 then 0 else CountAll(parts[..|parts| - 1], c) + Count(parts[|parts| - 1], c)
  }

  lemma {:induction false} CountAllEachOne(parts: seq<string>, c: char)
    requires forall i :: 0 <= i < |parts| ==> Count(parts[i], c) == 1
    ensures CountAll(parts, c) == |parts|
  {
    if |parts| > 0 {
      CountAllEachOne(parts[..|parts| - 1], c);
    }
  }

  lemma {:induction false} CountAllAppend(a: seq<string>, b: seq<string>, c: char)
    ensures CountAll(a + b, c) == CountAll(a, c) + CountAll(b, c)
  {
    if |b| > 0 {
      assert (a + b)[..|a + b| - 1] == a + b[..|b| - 1];
      CountAllAppend(a, b[..|b| - 1], c);
    } else {
      assert a + b == a;
    }
  }

  // ---------------------------------------------------------------------
  // Joining. Join is the reference definition; Prefixed and Suffixed are
  // what a StringBuilder loop produces when it writes the separator before
  // or after every part.
  // ---------------------------------------------------------------------

  function Join(parts: seq<string>, sep: string): string
  {
    if |parts| == 0 then ""
    else if |parts| == 1 then parts[0]
    else Join(parts[..|parts| - 1], sep) + sep + parts[|parts| - 1]
  }

  function Prefixed(parts: seq<string>, sep: string): string
  {
    if |parts| == 0 then "" else Prefixed(parts[..|parts| - 1], sep) + sep + parts[|parts| - 1]
  }

  function Suffixed(parts: seq<string>, sep: string): string
  {
    if |parts| == 0 then "" else Suffixed(parts[..|parts| - 1], sep) + parts[|parts| - 1] + sep
  }

  lemma {:induction false} PrefixedIsSepJoin(parts: seq<string>, sep: string)
    requires |parts| > 0
    ensures Prefixed(parts, sep) == sep + Join(parts, sep)
  {
    if |parts| > 1 {
      PrefixedIsSepJoin(parts[..|parts| - 1], sep);
    }
  }

  lemma {:induction false} SuffixedIsJoinSep(parts: seq<string>, sep: string)
    requires |parts| > 0
    ensures Suffixed(parts, sep) == Join(parts, sep) + sep
  {
    if |parts| > 1 {
      SuffixedIsJoinSep(parts[..|parts| - 1], sep);
    }
  }

  lemma {:induction false} CountJoin(parts: seq<string>, sep: string, c: char)
    requires c !in sep
    ensures Count(Join(parts, sep), c) == CountAll(parts, c)
  {
    CountZero(sep, c);
    if |parts| == 1 {
      assert parts[..0] == [];
    } else if |parts| > 1 {
      var init := parts[..|parts| - 1];
      CountJoin(init, sep, c);
      CountAppend(Join(init, sep) + sep, parts[|parts| - 1], c);
      CountAppend(Join(init, sep), sep, c);
    }
  }

  lemma {:induction false} JoinEmptyIff(parts: seq<string>, sep: string)
    requires |sep| > 0
    ensures Join(parts, sep) == "" <==> |parts| == 0 || (|parts| == 1 && parts[0] == "")
  {
    if |parts| > 1 {
      assert |Join(parts, sep)| >= |sep|;
    }
  }

  // ---------------------------------------------------------------------
  // Searching (String.indexOf / String.contains).
  // ---------------------------------------------------------------------

  predicate OccursAt(s: string, pat: string, j: int)
  {
    0 <= j && j + |pat| <= |s| && s[j..j + |pat|] == pat
  }

  /** Java's s.indexOf(pat, k): the first occurrence at or after k, or -1. */
  function IndexOfFrom(s: string, pat: string, k: nat): (r: int)
    requires k <= |s|
    ensures r == -1 || (k <= r && OccursAt(s, pat, r))
    ensures forall j :: k <= j && (r == -1 || j < r) ==> !OccursAt(s, pat, j)
    decreases |s| - k
  {
    if k + |pat| > |s| then -1
    else if s[k..k + |pat|] == pat then k
    else if k == |s| then -1
    else IndexOfFrom(s, pat, k + 1)
  }

  function IndexOf(s: string, pat: string): (r: int)
    ensures r == -1 || OccursAt(s, pat, r)
    ensures forall j :: (r == -1 || j < r) ==> !OccursAt(s, pat, j)
  {
    IndexOfFrom(s, pat, 0)
  }

  /** Java's s.indexOf(c) for one character. */
  function IndexOfChar(s: string, c: char): (r: int)
    ensures r == -1 <==> c !in s
    ensures r != -1 ==> 0 <= r < |s| && s[r] == c && c !in s[..r]
  {
    if |s| == 0 then -1
    else if s[0] == c then 0
    else
      var k := IndexOfChar(s[1..], c);
      if k == -1 then -1 else k + 1
  }

  // ---------------------------------------------------------------------
  // String.trim(): drops characters up to ' ' at both ends.
  // ---------------------------------------------------------------------

  predicate IsBlankChar(c: char) { c <= ' ' }

  function TrimStart(s: string): string
  {
    if |s| > 0 && IsBlankChar(s[0]) then TrimStart(s[1..]) else s
  }

  function TrimEnd(s: string): string
  {
    if |s| > 0 && IsBlankChar(s[|s| - 1]) then TrimEnd(s[..|s| - 1]) else s
  }

  function Trim(s: string): string
  {
    TrimEnd(TrimStart(s))
  }

  lemma {:induction false} TrimStartFacts(s: string)
    ensures (exists i :: 0 <= i < |s| && !IsBlankChar(s[i])) ==>
              |TrimStart(s)| > 0 && !IsBlankChar(TrimStart(s)[0])
    ensures (forall i :: 0 <= i < |s| ==> IsBlankChar(s[i])) ==> TrimStart(s) == ""
  {
    if |s| > 0 && IsBlankChar(s[0]) {
      TrimStartFacts(s[1..]);
      if exists i :: 0 <= i < |s| && !IsBlankChar(s[i]) {
        var i :| 0 <= i < |s| && !IsBlankChar(s[i]);
        assert i > 0 && !IsBlankChar(s[1..][i - 1]);
      }
    }
  }

  lemma {:induction false} TrimEndKeepsNonBlankHead(s: string)
    requires |s| > 0 && !IsBlankChar(s[0])
    ensures |TrimEnd(s)| > 0
  {
    if |s| > 1 && IsBlankChar(s[|s| - 1]) {
      TrimEndKeepsNonBlankHead(s[..|s| - 1]);
    }
  }

  /** s.trim().length() > 0 exactly when s holds a character above ' '. */
  lemma {:induction false} TrimNonEmptyIff(s: string)
    ensures |Trim(s)| > 0 <==> exists i :: 0 <= i < |s| && !IsBlankChar(s[i])
  {
    TrimStartFacts(s);
    if exists i :: 0 <= i < |s| && !IsBlankChar(s[i]) {
      TrimEndKeepsNonBlankHead(TrimStart(s));
    }
  }

  // ---------------------------------------------------------------------
  // String.replace(pat, ""): removes the non-overlapping occurrences of pat
  // found scanning left to right.
  // ---------------------------------------------------------------------

  function RemoveAll(s: string, pat: string): string
    requires |pat| > 0
    decreases |s|
  {
    if |s| < |pat| then s
    else if s[..|pat|] == pat then RemoveAll(s[|pat|..], pat)
    else [s[0]] + RemoveAll(s[1..], pat)
  }

  lemma {:induction false} RemoveAllAbsent(s: string, pat: string)
    requires |pat| > 0
    requires forall j :: !OccursAt(s, pat, j)
    ensures RemoveAll(s, pat) == s
    decreases |s|
  {
    if |s| >= |pat| {
      assert !OccursAt(s, pat, 0);
      forall j ensures !OccursAt(s[1..], pat, j) {
        if OccursAt(s[1..], pat, j) {
          assert s[1..][j..j + |pat|] == s[j + 1..j + 1 + |pat|];
          assert OccursAt(s, pat, j + 1);
        }
      }
      RemoveAllAbsent(s[1..], pat);
    }
  }

  // ---------------------------------------------------------------------
  // Decimal rendering (Integer.toString / string concatenation of an int)
  // and its inverse.
  // ---------------------------------------------------------------------

  predicate IsDigit(c: char) { '0' <= c <= '9' }

  function DigitChar(d: nat): (c: char)
    requires d < 10
    ensures IsDigit(c)
  {
    ('0' as int + d) as char
  }

  function DigitValue(c: char): (d: nat)
    requires IsDigit(c)
    ensures d < 10
  {
    c as int - '0' as int
  }

  function NatToString(n: nat): (r: string)
    ensures |r| > 0
    ensures forall i :: 0 <= i < |r| ==> IsDigit(r[i])
  {
    if n < 10 then [DigitChar(n)] else NatToString(n / 10) + [DigitChar(n % 10)]
  }

  function IntToString(i: int): (r: string)
    ensures '?' !in r
  {
    if i < 0 then "-" + NatToString(-i) else NatToString(i)
  }

  predicate AllDigits(s: string)
  {
    forall i :: 0 <= i < |s| ==> IsDigit(s[i])
  }

  function ParseDigits(s: string): nat
    requires AllDigits(s)
  {
    if |s| == 0 then 0 else ParseDigits(s[..|s| - 1]) * 10 + DigitValue(s[|s| - 1])
  }

  /** Reading the decimal text back gives the number. */
  lemma {:induction false} NatToStringRoundTrip(n: nat)
    ensures ParseDigits(NatToString(n)) == n
  {
    if n >= 10 {
      NatToStringRoundTrip(n / 10);
      var s := NatToString(n);
      assert s[..|s| - 1] == NatToString(n / 10);
    }
  }
}
