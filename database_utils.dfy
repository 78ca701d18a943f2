/** The string utilities of DatabaseUtils: emptiness tests, the
    camelCase / snake_case conversions and the getter-to-field name rule. */
module DatabaseUtils {
  import opened Wrappers
  import opened Text
  import opened JavaValues

  // ---------------------------------------------------------------------
  // isEmpty / isNotEmpty
  // ---------------------------------------------------------------------

  predicate IsEmpty(value: Option<string>)
  {
    value.None? || |value.value| == 0
  }

  predicate IsNotEmpty(value: Option<string>)
  {
    value.Some? && |value.value| != 0
  }

  predicate IsNotEmptyCollection<T>(collection: Option<seq<T>>)
  {
    collection.Some? && |collection.value| != 0
  }

  /** isNotEmpty(String) is the negation of isEmpty(String). */
  lemma {:induction false} IsNotEmptyNegatesIsEmpty(value: Option<string>)
    ensures IsNotEmpty(value) <==> !IsEmpty(value)
    ensures IsEmpty(value) <==> value == None || value == Some("")
  {
  }

  // ---------------------------------------------------------------------
  // toUnderline: camelCase -> snake_case
  // ---------------------------------------------------------------------

  /** What toUnderline appends for one character after the first: a
      character equal to its own upper case (an upper-case letter, but also
      a digit or '_') becomes '_' and its lower case. */
  function UnderlineChar(c: char): string
  {
    if ToUpper(c) == c then ['_', ToLower(c)] else [c]
  }

  function UnderlineTail(t: string): string
  {
    if |t| == 0 then "" else UnderlineTail(t[..|t| - 1]) + UnderlineChar(t[|t| - 1])
  }

  /** toUnderline of a non-null string. */
  function Underline(s: string): string
  {
    if |s| == 0 then "" else [ToLower(s[0])] + UnderlineTail(s[1..])
  }

  method ToUnderline(value: Option<string>) returns (r: string)
    ensures value.None? ==> r == ""
    ensures value.Some? ==> r == Underline(value.value)
  {
    var result := "";
    if value.Some? && |value.value| > 0 {
      var v := value.value;
      result := [ToLower(v[0])];
      for i := 1 to |v|
        invariant result == [ToLower(v[0])] + UnderlineTail(v[1..i])
      {
        var c := v[i];
        if ToUpper(c) == c {
          result := result + "_" + [ToLower(c)];
        } else {
          result := result + [c];
        }
        assert v[1..i + 1][..i - 1] == v[1..i];
      }
      assert v[1..|v|] == v[1..];
    }
    r := result;
  }

  lemma {:induction false} UnderlineSnoc(s: string, c: char)
    requires |s| > 0
    ensures Underline(s + [c]) == Underline(s) + UnderlineChar(c)
  {
    assert (s + [c])[1..] == s[1..] + [c];
    assert (s[1..] + [c])[..|s| - 1] == s[1..];
  }

  /** toUnderline never leaves an upper-case letter and never shortens
      the text. */
  lemma {:induction false} UnderlineIsLowerCase(s: string)
    ensures forall i :: 0 <= i < |Underline(s)| ==> !IsUpperAscii(Underline(s)[i])
    ensures |Underline(s)| >= |s|
  {
    if |s| > 1 {
      var init := s[..|s| - 1];
      var c := s[|s| - 1];
      assert s == init + [c];
      UnderlineIsLowerCase(init);
      UnderlineSnoc(init, c);
      assert init[0] == s[0];
    } else if |s| == 1 {
      assert Underline(s) == [ToLower(s[0])];
    }
  }

  // ---------------------------------------------------------------------
  // toCamelName: snake_case -> camelCase
  // ---------------------------------------------------------------------

  /** Every piece between separators, empty ones included. */
  function SplitAll(s: string, sep: char): (parts: seq<string>)
    ensures |parts| == Count(s, sep) + 1
  {
    if |s| == 0 then [""]
    else
      var init := SplitAll(s[..|s| - 1], sep);
      if s[|s| - 1] == sep then init + [""]
      else init[..|init| - 1] + [init[|init| - 1] + [s[|s| - 1]]]
  }

  function StripTrailingEmpty(parts: seq<string>): seq<string>
  {
    if |parts| > 0 && parts[|parts| - 1] == "" then StripTrailingEmpty(parts[..|parts| - 1]) else parts
  }

  /** String.split with a one-character separator: a string without the
      separator splits into itself; otherwise trailing empty pieces are
      dropped (so "_" splits into no pieces at all). */
  function JavaSplit(s: string, sep: char): seq<string>
  {
    if sep !in s then [s] else StripTrailingEmpty(SplitAll(s, sep))
  }

  /** part.substring(0, 1).toUpperCase() + part.substring(1). */
  function Capitalized(part: string): Result<string, JavaError>
  {
    if |part| == 0 then Err(IndexOutOfBounds) else Ok([ToUpper(part[0])] + part[1..])
  }

  /** The camel name built from the first n pieces. */
  function CamelPrefix(parts: seq<string>, n: nat): Result<string, JavaError>
    requires 1 <= n <= |parts|
  {
    if n == 1 then Ok(parts[0])
    else
      match CamelPrefix(parts, n - 1)
      case Err(e) => Err(e)
      case Ok(acc) =>
        match Capitalized(parts[n - 1])
        case Err(e) => Err(e)
        case Ok(cap) => Ok(acc + cap)
  }

  /** toCamelName: fails when the split leaves no piece or when a piece
      after the first is empty. */
  function CamelName(value: string): Result<string, JavaError>
  {
    var parts := JavaSplit(value, '_');
    if |parts| == 0 then Err(IndexOutOfBounds) else CamelPrefix(parts, |parts|)
  }

  lemma {:induction false} CamelPrefixErrSticky(parts: seq<string>, i: nat, n: nat)
    requires 1 <= i <= n <= |parts|
    requires CamelPrefix(parts, i).Err?
    ensures CamelPrefix(parts, n) == CamelPrefix(parts, i)
    decreases n
  {
    if n > i {
      CamelPrefixErrSticky(parts, i, n - 1);
    }
  }

  method ToCamelName(value: string) returns (r: Result<string, JavaError>)
    ensures r == CamelName(value)
  {
    var partOfNames := JavaSplit(value, '_');
    if |partOfNames| == 0 {
      return Err(IndexOutOfBounds);
    }
    var sb := partOfNames[0];
    for i := 1 to |partOfNames|
      invariant CamelPrefix(partOfNames, i) == Ok(sb)
    {
      var part := partOfNames[i];
      if |part| == 0 {
        assert CamelPrefix(partOfNames, i + 1) == Err(IndexOutOfBounds);
        CamelPrefixErrSticky(partOfNames, i + 1, |partOfNames|);
        return Err(IndexOutOfBounds);
      }
      assert Capitalized(part) == Ok([ToUpper(part[0])] + part[1..]);
      sb := sb + ([ToUpper(part[0])] + part[1..]);
    }
    r := Ok(sb);
  }

  lemma {:induction false} CamelPrefixDependsOnPrefix(p: seq<string>, q: seq<string>, n: nat)
    requires 1 <= n <= |p| && n <= |q|
    requires p[..n] == q[..n]
    ensures CamelPrefix(p, n) == CamelPrefix(q, n)
  {
    assert p[n - 1] == p[..n][n - 1] == q[n - 1];
    if n > 1 {
      assert p[..n - 1] == p[..n][..n - 1];
      assert q[..n - 1] == q[..n][..n - 1];
      CamelPrefixDependsOnPrefix(p, q, n - 1);
    } else {
      assert p[0] == p[..n][0];
    }
  }

  lemma {:induction false} SplitAllNoSep(s: string, sep: char)
    requires sep !in s
    ensures SplitAll(s, sep) == [s]
  {
    if |s| > 0 {
      SplitAllNoSep(s[..|s| - 1], sep);
      assert s[..|s| - 1] + [s[|s| - 1]] == s;
    }
  }

  lemma {:induction false} SplitAllSnoc(u: string, c: char, sep: char)
    ensures var p := SplitAll(u, sep);
      SplitAll(u + [c], sep) ==
        if c == sep then p + [""] else p[..|p| - 1] + [p[|p| - 1] + [c]]
  {
    assert (u + [c])[..|u|] == u;
  }

  /** Appending a piece [l] to pieces that camel-case to acc. */
  lemma {:induction false} CamelPrefixNewPiece(p: seq<string>, acc: string, l: char)
    requires |p| >= 1 && CamelPrefix(p, |p|) == Ok(acc)
    ensures CamelPrefix(p + [[l]], |p| + 1) == Ok(acc + [ToUpper(l)])
  {
    CamelPrefixDependsOnPrefix(p, p + [[l]], |p|);
    assert [ToUpper(l)] + [l][1..] == [ToUpper(l)];
  }

  /** Extending the last, non-empty piece by c extends the camel name by c. */
  lemma {:induction false} CamelPrefixExtendLast(p: seq<string>, acc: string, c: char)
    requires |p| >= 1 && |p[|p| - 1]| > 0 && CamelPrefix(p, |p|) == Ok(acc)
    ensures var q := p[..|p| - 1] + [p[|p| - 1] + [c]];
      CamelPrefix(q, |q|) == Ok(acc + [c])
  {
    var k := |p|;
    var q := p[..k - 1] + [p[k - 1] + [c]];
    if k > 1 {
      assert p[..k - 1] == q[..k - 1];
      CamelPrefixDependsOnPrefix(p, q, k - 1);
      var last := p[k - 1];
      var a0 := CamelPrefix(p, k - 1).value;
      var cap := [ToUpper(last[0])] + last[1..];
      assert acc == a0 + cap;
      assert q[k - 1] == last + [c];
      assert (last + [c])[0] == last[0] && (last + [c])[1..] == last[1..] + [c];
      assert [ToUpper(last[0])] + (last[1..] + [c]) == cap + [c];
      assert Capitalized(q[k - 1]) == Ok(cap + [c]);
      assert acc + [c] == a0 + (cap + [c]);
    }
  }

  /** The pieces after appending '_' and a character other than '_'. */
  lemma {:induction false} PiecesAfterSeparator(u: string, acc: string, l: char)
    requires l != '_'
    requires var p := SplitAll(u, '_'); CamelPrefix(p, |p|) == Ok(acc)
    ensures var q := SplitAll(u + ['_', l], '_');
      |q[|q| - 1]| > 0 && CamelPrefix(q, |q|) == Ok(acc + [ToUpper(l)])
  {
    SplitAllSeparatorThen(u, l, '_');
    CamelPrefixNewPiece(SplitAll(u, '_'), acc, l);
  }

  /** A separator followed by another character starts a one-character piece. */
  lemma {:induction false} SplitAllSeparatorThen(u: string, l: char, sep: char)
    requires l != sep
    ensures SplitAll(u + [sep, l], sep) == SplitAll(u, sep) + [[l]]
  {
    var p := SplitAll(u, sep);
    var v := u + [sep];
    SplitAllSnoc(u, sep, sep);
    SplitAllSnoc(v, l, sep);
    assert v + [l] == u + [sep, l];
    var q := p + [""];
    assert q[..|q| - 1] == p;
    assert q[|q| - 1] + [l] == [l];
  }

  /** The pieces after appending a character other than '_'. */
  lemma {:induction false} PiecesAfterChar(u: string, acc: string, c: char)
    requires c != '_'
    requires var p := SplitAll(u, '_'); |p[|p| - 1]| > 0 && CamelPrefix(p, |p|) == Ok(acc)
    ensures var q := SplitAll(u + [c], '_');
      |q[|q| - 1]| > 0 && CamelPrefix(q, |q|) == Ok(acc + [c])
  {
    SplitAllSnoc(u, c, '_');
    CamelPrefixExtendLast(SplitAll(u, '_'), acc, c);
  }

  /** The pieces of toUnderline(s) are non-empty and camel-case back to s. */
  lemma {:induction false} UnderlinePieces(s: string)
    requires |s| > 0 && '_' !in s && !IsUpperAscii(s[0])
    ensures var parts := SplitAll(Underline(s), '_');
      |parts[|parts| - 1]| > 0 && CamelPrefix(parts, |parts|) == Ok(s)
  {
    if |s| == 1 {
      assert s[1..] == "";
      assert Underline(s) == [s[0]];
      assert s[0] != '_';
      assert Underline(s)[..0] == "";
      assert "" + [s[0]] == s;
      assert SplitAll(Underline(s), '_') == [s];
    } else {
      var init := s[..|s| - 1];
      var c := s[|s| - 1];
      assert s == init + [c];
      assert init[0] == s[0];
      UnderlinePieces(init);
      UnderlineSnoc(init, c);
      var u := Underline(init);
      if ToUpper(c) == c {
        CaseInverse(c);
        assert !IsLowerAscii(c);
        PiecesAfterSeparator(u, init, ToLower(c));
      } else {
        PiecesAfterChar(u, init, c);
      }
    }
  }

  /** toCamelName undoes toUnderline on every name without '_' whose first
      character is not an upper-case letter. */
  lemma {:induction false} CamelUnderlineRoundTrip(s: string)
    requires '_' !in s
    requires |s| > 0 ==> !IsUpperAscii(s[0])
    ensures CamelName(Underline(s)) == Ok(s)
  {
    if |s| == 0 {
      assert JavaSplit("", '_') == [""];
    } else {
      UnderlinePieces(s);
      var u := Underline(s);
      var parts := SplitAll(u, '_');
      if '_' !in u {
        SplitAllNoSep(u, '_');
      }
      assert StripTrailingEmpty(parts) == parts;
      assert JavaSplit(u, '_') == parts;
    }
  }

  // ---------------------------------------------------------------------
  // methodToFieldName / capitalize
  // ---------------------------------------------------------------------

  /** capitalize: despite its name it lower-cases the first character;
      an empty input makes substring(0, 1) throw. */
  function Capitalize(input: string): Result<string, JavaError>
  {
    if |input| == 0 then Err(IndexOutOfBounds) else Ok([ToLower(input[0])] + input[1..])
  }

  /** methodToFieldName as written: every occurrence of "get" is removed,
      not only the leading one. */
  function MethodToFieldName(methodName: string): Result<string, JavaError>
  {
    Capitalize(RemoveAll(methodName, "get"))
  }

  /** The getter-to-field rule as intended: only a leading "get" goes. */
  function GetterToFieldName(methodName: string): Result<string, JavaError>
  {
    if |methodName| >= 3 && methodName[..3] == "get" then Capitalize(methodName[3..])
    else Capitalize(methodName)
  }
}
