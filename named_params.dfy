/** The positional-to-named placeholder rewrite that execute,
    executeAndGetKey and the save methods of a Query apply before handing a
    statement to the driver: the k-th '?' from the left becomes ":pk". */
module NamedParams {
  import opened Text

  /** The name the driver binds the k-th positional value under: ":p"
      followed by the decimal digits of k. */
  function ParamName(k: nat): (r: string)
    ensures '?' !in r
    ensures |r| > 2 && r[..2] == ":p"
  {
    if k < 10 then ":p" + [DigitChar(k)] else ParamName(k / 10) + [DigitChar(k % 10)]
  }

  /** s with every '?' replaced by a name, numbering from k: the '?'s get
      k, k + 1, ... from left to right. */
  function Rewrite(s: string, k: nat): string
  {
    if |s| == 0 then ""
    else if s[0] == '?' then ParamName(k) + Rewrite(s[1..], k + 1)
    else [s[0]] + Rewrite(s[1..], k)
  }

  /** String.replaceFirst with a pattern matching one literal character and
      a replacement holding no group reference. */
  function ReplaceFirst(s: string, c: char, replacement: string): (r: string)
    ensures c !in s ==> r == s
    ensures c in s ==> var i := IndexOfChar(s, c); r == s[..i] + replacement + s[i + 1..]
  {
    var i := IndexOfChar(s, c);
    if i < 0 then s else s[..i] + replacement + s[i + 1..]
  }

  lemma {:induction false} RewriteNoMarksFrom(s: string, k: nat)
    ensures '?' !in Rewrite(s, k)
  {
    if |s| > 0 {
      RewriteNoMarksFrom(s[1..], if s[0] == '?' then k + 1 else k);
    }
  }

  /** Text without '?' is left as it is. */
  lemma {:induction false} RewriteUnmarked(s: string, k: nat)
    requires '?' !in s
    ensures Rewrite(s, k) == s
  {
    if |s| > 0 {
      assert s[0] != '?';
      assert '?' !in s[1..] by {
        forall i | 0 <= i < |s[1..]| ensures s[1..][i] != '?' {
          assert s[1..][i] == s[i + 1];
        }
      }
      RewriteUnmarked(s[1..], k);
      assert s == [s[0]] + s[1..];
    }
  }

  /** The count of a marks splits off at the first character. */
  lemma {:induction false} CountFirst(a: string)
    requires |a| > 0
    ensures Count(a, '?') == (if a[0] == '?' then 1 else 0) + Count(a[1..], '?')
  {
    assert a == [a[0]] + a[1..];
    CountAppend([a[0]], a[1..], '?');
    assert [a[0]][..0] == [];
  }

  /** The rewrite of a concatenation numbers the second part on from where
      the first part stopped. */
  lemma {:induction false} RewriteAppend(a: string, b: string, k: nat)
    ensures Rewrite(a + b, k) == Rewrite(a, k) + Rewrite(b, k + Count(a, '?'))
  {
    if |a| == 0 {
      assert a + b == b;
    } else {
      var k' := if a[0] == '?' then k + 1 else k;
      var head := if a[0] == '?' then ParamName(k) else [a[0]];
      AppendFirst(a, b);
      CountFirst(a);
      RewriteAppend(a[1..], b, k');
      assert Rewrite(a + b, k) == head + Rewrite(a[1..] + b, k');
      assert Rewrite(a, k) == head + Rewrite(a[1..], k');
      ConcatAssoc(head, Rewrite(a[1..], k'), Rewrite(b, k' + Count(a[1..], '?')));
    }
  }

  lemma {:induction false} AppendFirst(a: string, b: string)
    requires |a| > 0
    ensures (a + b)[0] == a[0]
    ensures (a + b)[1..] == a[1..] + b
  {
  }

  /** The rewritten text holds no '?' at all. */
  lemma {:induction false} RewriteRemovesMarks(s: string)
    ensures '?' !in Rewrite(s, 1)
  {
    RewriteNoMarksFrom(s, 1);
  }

  /** The '?' at position n, the (m+1)-th from the left, becomes
      ":p" + (m+1), and everything around it is rewritten in place. */
  lemma {:induction false} NthMarkName(s: string, n: nat)
    requires n < |s| && s[n] == '?'
    ensures Rewrite(s, 1) ==
              Rewrite(s[..n], 1) + ParamName(1 + Count(s[..n], '?')) + Rewrite(s[n + 1..], 2 + Count(s[..n], '?'))
  {
    SplitAtMark(s, n);
    RewriteAroundMark(s[..n], s[n + 1..]);
  }

  lemma {:induction false} SplitAtMark(s: string, n: nat)
    requires n < |s| && s[n] == '?'
    ensures s == s[..n] + "?" + s[n + 1..]
  {
    assert s[..n + 1] == s[..n] + "?";
    assert s == s[..n + 1] + s[n + 1..];
  }

  lemma {:induction false} RewriteAroundMark(before: string, after: string)
    ensures Rewrite(before + "?" + after, 1) ==
              Rewrite(before, 1) + ParamName(1 + Count(before, '?')) + Rewrite(after, 2 + Count(before, '?'))
  {
    RewriteAppend(before + "?", after, 1);
    RewriteMarkLast(before);
  }

  /** Rewriting twice is rewriting once. */
  lemma {:induction false} RewriteIdempotent(s: string)
    ensures Rewrite(Rewrite(s, 1), 1) == Rewrite(s, 1)
  {
    RewriteNoMarksFrom(s, 1);
    RewriteUnmarked(Rewrite(s, 1), 1);
  }

  lemma {:induction false} IndexOfCharAfter(a: string, b: string, c: char)
    requires c !in a && c in b
    ensures IndexOfChar(a + b, c) == |a| + IndexOfChar(b, c)
  {
    var i := IndexOfChar(b, c);
    assert (a + b)[|a| + i] == c;
    assert (a + b)[..|a| + i] == a + b[..i];
  }

  lemma {:induction false} NoMarksJoined(a: string, b: string)
    requires '?' !in a && '?' !in b
    ensures '?' !in a + b
  {
  }

  lemma {:induction false} ReplaceFirstAfter(prefix: string, tail: string, name: string)
    requires '?' !in prefix
    ensures ReplaceFirst(prefix + "?" + tail, '?', name) == prefix + name + tail
  {
    var whole := prefix + "?" + tail;
    assert IndexOfChar("?" + tail, '?') == 0;
    assert whole == prefix + ("?" + tail);
    IndexOfCharAfter(prefix, "?" + tail, '?');
    assert whole[..|prefix|] == prefix;
    assert whole[|prefix| + 1..] == tail;
  }

  lemma {:induction false} RewriteMarkLast(x: string)
    ensures Rewrite(x + "?", 1) == Rewrite(x, 1) + ParamName(1 + Count(x, '?'))
    ensures Count(x + "?", '?') == Count(x, '?') + 1
  {
    var m := 1 + Count(x, '?');
    RewriteAppend(x, "?", 1);
    assert "?"[1..] == "";
    assert Rewrite("?", m) == ParamName(m) + Rewrite("", m + 1);
    assert ParamName(m) + "" == ParamName(m);
    CountAppend(x, "?", '?');
    assert "?"[..0] == "";
  }

  /** One turn of the rewrite loop, on the text split around the first
      '?' not yet consumed. */
  lemma {:induction false} StepParts(head: string, gap: string, tail: string)
    requires '?' !in gap
    ensures ReplaceFirst(Rewrite(head, 1) + (gap + "?" + tail), '?', ParamName(1 + Count(head, '?'))) ==
              Rewrite(head + gap + "?", 1) + tail
    ensures Count(head + gap + "?", '?') == Count(head, '?') + 1
  {
    var done := Rewrite(head, 1);
    var k := Count(head, '?');
    var name := ParamName(1 + k);
    RewriteNoMarksFrom(head, 1);
    NoMarksJoined(done, gap);
    ReplaceFirstAfter(done + gap, tail, name);
    assert done + (gap + "?" + tail) == done + gap + "?" + tail;
    CountAppend(head, gap, '?');
    CountZero(gap, '?');
    assert Count(head + gap, '?') == k;
    RewriteMarkLast(head + gap);
    RewriteAppend(head, gap, 1);
    RewriteUnmarked(gap, 1 + k);
    assert Rewrite(head + gap, 1) == done + gap;
    assert Rewrite(head + gap + "?", 1) == done + gap + name;
  }

  /** One turn of the rewrite loop on text whose first j characters are
      rewritten: replacing the first '?' consumes the next mark of the
      original. */
  lemma {:induction false} LoopStep(sql: string, j: nat) returns (next: nat)
    requires j <= |sql| && '?' in Rewrite(sql[..j], 1) + sql[j..]
    ensures j < next <= |sql|
    ensures ReplaceFirst(Rewrite(sql[..j], 1) + sql[j..], '?', ParamName(1 + Count(sql[..j], '?'))) ==
              Rewrite(sql[..next], 1) + sql[next..]
    ensures Count(sql[..next], '?') == Count(sql[..j], '?') + 1
  {
    var head := sql[..j];
    RewriteNoMarksFrom(head, 1);
    var i := FirstMarkAfter(Rewrite(head, 1), sql, j);
    next := j + i + 1;
    SliceAtMark(sql, j, i, next);
    StepParts(head, sql[j..][..i], sql[next..]);
  }

  /** The first '?' of done + sql[j..], when done has none, lies in sql
      at j + i. */
  lemma {:induction false} FirstMarkAfter(done: string, sql: string, j: nat) returns (i: nat)
    requires j <= |sql| && '?' !in done && '?' in done + sql[j..]
    ensures j + i < |sql| && sql[j + i] == '?' && '?' !in sql[j..][..i]
  {
    MarkInSuffix(done, sql[j..]);
    i := IndexOfChar(sql[j..], '?');
  }

  /** The text after position j splits at the '?' i characters further. */
  lemma {:induction false} SliceAtMark(sql: string, j: nat, i: nat, next: nat)
    requires next == j + i + 1 && next <= |sql| && sql[j + i] == '?'
    ensures sql[j..] == sql[j..][..i] + "?" + sql[next..]
    ensures sql[..next] == sql[..j] + sql[j..][..i] + "?"
  {
  }

  lemma {:induction false} MarkInSuffix(a: string, b: string)
    requires '?' !in a && '?' in a + b
    ensures '?' in b
  {
    var n :| 0 <= n < |a + b| && (a + b)[n] == '?';
    assert n >= |a|;
    assert b[n - |a|] == '?';
  }

  /** When no '?' is left the loop has rewritten the whole statement. */
  lemma {:induction false} LoopDone(sql: string, j: nat)
    requires j <= |sql| && '?' !in Rewrite(sql[..j], 1) + sql[j..]
    ensures Rewrite(sql[..j], 1) + sql[j..] == Rewrite(sql, 1)
  {
    UnmarkedSuffix(Rewrite(sql[..j], 1), sql[j..]);
    SplitJoin(sql, j);
    RewriteUnmarkedTail(sql[..j], sql[j..]);
  }

  lemma {:induction false} SplitJoin(s: string, j: nat)
    requires j <= |s|
    ensures s[..j] + s[j..] == s
  {
  }

  lemma {:induction false} RewriteUnmarkedTail(head: string, tail: string)
    requires '?' !in tail
    ensures Rewrite(head, 1) + tail == Rewrite(head + tail, 1)
  {
    var k := 1 + Count(head, '?');
    calc {
      Rewrite(head + tail, 1);
    == { RewriteAppend(head, tail, 1); }
      Rewrite(head, 1) + Rewrite(tail, k);
    == { RewriteUnmarked(tail, k); }
      Rewrite(head, 1) + tail;
    }
  }

  lemma {:induction false} UnmarkedSuffix(a: string, b: string)
    requires '?' !in a + b
    ensures '?' !in b
  {
    forall n | 0 <= n < |b| ensures b[n] != '?' {
      assert b[n] == (a + b)[|a| + n];
    }
  }

  /** The rewrite loop of execute(sql, params): while a '?' remains,
      replace the first one with the next ":p" name. */
  method RewritePlaceholders(sql: string) returns (r: string)
    ensures r == Rewrite(sql, 1)
    ensures '?' !in r
  {
    r := sql;
    var pos := 1;
    ghost var j := 0;
    while '?' in r
      invariant 0 <= j <= |sql|
      invariant r == Rewrite(sql[..j], 1) + sql[j..]
      invariant pos == 1 + Count(sql[..j], '?')
      decreases |sql| - j
    {
      j := LoopStep(sql, j);
      r := ReplaceFirst(r, '?', ParamName(pos));
      pos := pos + 1;
    }
    LoopDone(sql, j);
    RewriteNoMarksFrom(sql, 1);
  }
}
