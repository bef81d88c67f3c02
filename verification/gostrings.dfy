/**
 * The few functions of Go's `strings` and `unicode` packages that the bot's
 * input handling relies on, over strings of Unicode code points.
 */
module GoStrings {
  /** unicode.IsSpace: the Latin-1 and Unicode White_Space code points. */
  predicate IsSpace(c: char)
  {
    c == ' ' || c == '\t' || c == '\n' || c == '\U{0B}' || c == '\U{0C}' || c == '\r'
    || c == '\U{85}' || c == '\U{A0}' || c == '\U{1680}'
    || ('\U{2000}' <= c <= '\U{200A}')
    || c == '\U{2028}' || c == '\U{2029}' || c == '\U{202F}' || c == '\U{205F}' || c == '\U{3000}'
  }

  predicate NoSpace(s: string)
  {
    forall k :: 0 <= k < |s| ==> !IsSpace(s[k])
  }

  predicate AllSpace(s: string)
  {
    forall k :: 0 <= k < |s| ==> IsSpace(s[k])
  }

  /** `s` neither starts nor ends with white space (the shape TrimSpace produces). */
  predicate Trimmed(s: string)
  {
    s == [] || (!IsSpace(s[0]) && !IsSpace(s[|s| - 1]))
  }

  /** strings.TrimLeftFunc(s, unicode.IsSpace) */
  function TrimLeftSpace(s: string): (r: string)
    ensures |r| <= |s|
  {
    if |s| > 0 && IsSpace(s[0]) then TrimLeftSpace(s[1..]) else s
  }

  /** TrimLeftSpace keeps a suffix of its input, and that suffix does not start with white space. */
  lemma {:induction false} TrimLeftSpaceShape(s: string)
    ensures TrimLeftSpace(s) == s[|s| - |TrimLeftSpace(s)|..]
    ensures TrimLeftSpace(s) == [] || !IsSpace(TrimLeftSpace(s)[0])
    decreases |s|
  {
    if |s| > 0 && IsSpace(s[0]) {
      TrimLeftSpaceShape(s[1..]);
    }
  }

  /** strings.TrimRightFunc(s, unicode.IsSpace) */
  function TrimRightSpace(s: string): (r: string)
    ensures |r| <= |s|
  {
    if |s| > 0 && IsSpace(s[|s| - 1]) then TrimRightSpace(s[..|s| - 1]) else s
  }

  /** TrimRightSpace keeps a prefix of its input, and that prefix does not end with white space. */
  lemma {:induction false} TrimRightSpaceShape(s: string)
    ensures TrimRightSpace(s) == s[..|TrimRightSpace(s)|]
    ensures TrimRightSpace(s) == [] || !IsSpace(TrimRightSpace(s)[|TrimRightSpace(s)| - 1])
    decreases |s|
  {
    if |s| > 0 && IsSpace(s[|s| - 1]) {
      TrimRightSpaceShape(s[..|s| - 1]);
    }
  }

  /** strings.TrimSpace */
  function TrimSpace(s: string): (r: string)
    ensures |r| <= |s|
  {
    TrimRightSpace(TrimLeftSpace(s))
  }

  /** What TrimSpace returns neither starts nor ends with white space. */
  lemma TrimSpaceShape(s: string)
    ensures Trimmed(TrimSpace(s))
  {
    var l := TrimLeftSpace(s);
    var r := TrimSpace(s);
    TrimLeftSpaceShape(s);
    TrimRightSpaceShape(l);
    if r != [] {
      assert r[0] == l[0];
    }
  }

  lemma {:induction false} TrimLeftSpaceOf(sp: string, a: string)
    requires AllSpace(sp) && (a == [] || !IsSpace(a[0]))
    ensures TrimLeftSpace(sp + a) == a
    decreases |sp|
  {
    if sp != [] {
      assert (sp + a)[1..] == sp[1..] + a;
      TrimLeftSpaceOf(sp[1..], a);
    } else {
      assert sp + a == a;
    }
  }

  lemma {:induction false} TrimRightSpaceOf(a: string, sp: string)
    requires AllSpace(sp) && (a == [] || !IsSpace(a[|a| - 1]))
    ensures TrimRightSpace(a + sp) == a
    decreases |sp|
  {
    if sp != [] {
      var last := |sp| - 1;
      assert (a + sp)[..|a + sp| - 1] == a + sp[..last];
      TrimRightSpaceOf(a, sp[..last]);
    } else {
      assert a + sp == a;
    }
  }

  /** TrimSpace removes exactly the white space around a trimmed core, and nothing else. */
  lemma TrimSpaceOf(pre: string, a: string, post: string)
    requires AllSpace(pre) && AllSpace(post) && Trimmed(a)
    ensures TrimSpace(pre + a + post) == a
  {
    if a == [] {
      assert pre + a + post == pre + post;
      assert AllSpace(pre + post);
      TrimLeftSpaceOf(pre + post, []);
      assert pre + post + [] == pre + post;
    } else {
      assert pre + a + post == pre + (a + post);
      TrimLeftSpaceOf(pre, a + post);
      TrimRightSpaceOf(a, post);
    }
  }

  /** TrimSpace leaves text that is already trimmed unchanged. */
  lemma TrimSpaceClean(a: string)
    requires Trimmed(a)
    ensures TrimSpace(a) == a
  {
    assert [] + a + [] == a;
    TrimSpaceOf([], a, []);
  }

  /** TrimSpace is idempotent. */
  lemma TrimSpaceTwice(s: string)
    ensures TrimSpace(TrimSpace(s)) == TrimSpace(s)
  {
    TrimSpaceShape(s);
    TrimSpaceClean(TrimSpace(s));
  }

  function HasPrefix(s: string, p: string): bool
  {
    |p| <= |s| && s[..|p|] == p
  }

  /** strings.TrimPrefix */
  function TrimPrefix(s: string, p: string): (r: string)
    ensures HasPrefix(s, p) ==> p + r == s
    ensures !HasPrefix(s, p) ==> r == s
  {
    if HasPrefix(s, p) then s[|p|..] else s
  }

  /** strings.Contains */
  predicate Contains(s: string, sub: string)
    decreases |s|
  {
    HasPrefix(s, sub) || (|s| > 0 && Contains(s[1..], sub))
  }

  /** strings.ReplaceAll(s, pat, "") for a non-empty pattern: leftmost non-overlapping matches are removed. */
  function RemoveAll(s: string, pat: string): (r: string)
    requires |pat| > 0
    ensures |r| <= |s|
    decreases |s|
  {
    if |s| < |pat| then s
    else if s[..|pat|] == pat then RemoveAll(s[|pat|..], pat)
    else [s[0]] + RemoveAll(s[1..], pat)
  }

  /** Text in which the pattern's first character never occurs is left as it is. */
  lemma {:induction false} RemoveAllAbsent(s: string, pat: string)
    requires |pat| > 0 && pat[0] !in s
    ensures RemoveAll(s, pat) == s
    decreases |s|
  {
    if |s| >= |pat| {
      assert s[..|pat|][0] == s[0];
      RemoveAllAbsent(s[1..], pat);
    }
  }

  /** A mention appended after the text is cut out, leaving the text untouched. */
  lemma {:induction false} RemoveAllSuffix(a: string, pat: string)
    requires |pat| > 0 && pat[0] !in a
    ensures RemoveAll(a + pat, pat) == a
    decreases |a|
  {
    if a == [] {
      assert a + pat == pat;
      assert pat[|pat|..] == [];
    } else {
      var s := a + pat;
      assert s[..|pat|] != pat by { assert s[0] == a[0] && a[0] != pat[0]; }
      assert s[1..] == a[1..] + pat;
      RemoveAllSuffix(a[1..], pat);
    }
  }

  /** unicode.ToLower for ASCII and the basic Cyrillic block (U+0400..U+042F). */
  function LowerChar(c: char): (r: char)
  {
    if 'A' <= c <= 'Z' then (c as int + 32) as char
    else if '\U{0410}' <= c <= '\U{042F}' then (c as int + 32) as char
    else if '\U{0400}' <= c <= '\U{040F}' then (c as int + 80) as char
    else c
  }

  /** strings.ToLower, character by character. */
  function ToLower(s: string): (r: string)
  {
    seq(|s|, i requires 0 <= i < |s| => LowerChar(s[i]))
  }

  /** Lower-casing changes no white space into non-space or back, so it commutes with trimming. */
  lemma LowerCharSpace(c: char)
    ensures IsSpace(LowerChar(c)) == IsSpace(c)
  {
  }

  /** Lower-casing twice is lower-casing once. */
  lemma ToLowerTwice(s: string)
    ensures ToLower(ToLower(s)) == ToLower(s)
  {
  }

  lemma {:induction false} ToLowerTrimLeft(s: string)
    ensures TrimLeftSpace(ToLower(s)) == ToLower(TrimLeftSpace(s))
    decreases |s|
  {
    if |s| > 0 {
      LowerCharSpace(s[0]);
      assert ToLower(s)[1..] == ToLower(s[1..]);
      ToLowerTrimLeft(s[1..]);
    }
  }

  lemma {:induction false} ToLowerTrimRight(s: string)
    ensures TrimRightSpace(ToLower(s)) == ToLower(TrimRightSpace(s))
    decreases |s|
  {
    if |s| > 0 {
      LowerCharSpace(s[|s| - 1]);
      assert ToLower(s)[..|s| - 1] == ToLower(s[..|s| - 1]);
      ToLowerTrimRight(s[..|s| - 1]);
    }
  }

  /** Trimming and lower-casing commute: lower-casing turns no letter into white space or back. */
  lemma ToLowerTrimSpace(s: string)
    ensures TrimSpace(ToLower(s)) == ToLower(TrimSpace(s))
  {
    ToLowerTrimLeft(s);
    ToLowerTrimRight(TrimLeftSpace(s));
  }

  /** strings.Join(parts, string(sep)) */
  function Join(parts: seq<string>, sep: char): string
  {
    if |parts| == 0 then ""
    else if |parts| == 1 then parts[0]
    else parts[0] + [sep] + Join(parts[1..], sep)
  }

  /** strings.Split(s, string(sep)) for a one-character separator. */
  function Split(s: string, sep: char): (r: seq<string>)
    ensures |r| >= 1
    decreases |s|
  {
    if |s| == 0 then [""]
    else
      var rest := Split(s[1..], sep);
      if s[0] == sep then [""] + rest
      else [[s[0]] + rest[0]] + rest[1..]
  }

  /** The pieces of Split hold no separator, and joining them gives the text back. */
  lemma SplitPieces(s: string, sep: char)
    ensures forall i :: 0 <= i < |Split(s, sep)| ==> sep !in Split(s, sep)[i]
    ensures Join(Split(s, sep), sep) == s
  {
    SplitNoSeparator(s, sep);
    JoinSplit(s, sep);
  }

  lemma {:induction false} SplitNoSeparator(s: string, sep: char)
    ensures forall i :: 0 <= i < |Split(s, sep)| ==> sep !in Split(s, sep)[i]
    decreases |s|
  {
    if |s| > 0 {
      SplitNoSeparator(s[1..], sep);
      var rest := Split(s[1..], sep);
      var r := Split(s, sep);
      if s[0] == sep {
        assert r == [""] + rest;
        assert forall i :: 1 <= i < |r| ==> r[i] == rest[i - 1];
      } else {
        assert r == [[s[0]] + rest[0]] + rest[1..];
        assert forall i :: 1 <= i < |r| ==> r[i] == rest[i];
      }
    }
  }

  lemma {:induction false} JoinSplit(s: string, sep: char)
    ensures Join(Split(s, sep), sep) == s
    decreases |s|
  {
    if |s| > 0 {
      JoinSplit(s[1..], sep);
      var rest := Split(s[1..], sep);
      var r := Split(s, sep);
      if s[0] == sep {
        assert r == [""] + rest;
        assert r[1..] == rest;
      } else {
        assert r == [[s[0]] + rest[0]] + rest[1..];
        if |rest| == 1 {
          assert r == [[s[0]] + rest[0]];
        } else {
          assert r[1..] == rest[1..];
          assert Join(rest, sep) == rest[0] + [sep] + Join(rest[1..], sep);
        }
      }
      assert s == [s[0]] + s[1..];
    }
  }

  /** Split undoes Join when no part contains the separator. */
  lemma {:induction false} SplitJoin(parts: seq<string>, sep: char)
    requires |parts| >= 1
    requires forall i :: 0 <= i < |parts| ==> sep !in parts[i]
    ensures Split(Join(parts, sep), sep) == parts
    decreases |parts|, |parts[0]|
  {
    var p := parts[0];
    if |p| == 0 {
      if |parts| == 1 {
      } else {
        var s := Join(parts, sep);
        assert s == [sep] + Join(parts[1..], sep);
        assert s[1..] == Join(parts[1..], sep);
        SplitJoin(parts[1..], sep);
        assert parts == [""] + parts[1..];
      }
    } else {
      var tail := [p[1..]] + parts[1..];
      assert forall i :: 0 <= i < |tail| ==> sep !in tail[i] by {
        forall i | 0 <= i < |tail| ensures sep !in tail[i] {
          if i == 0 {
            assert forall k :: 0 <= k < |p[1..]| ==> p[1..][k] == p[k + 1];
          } else {
            assert tail[i] == parts[i];
          }
        }
      }
      var s := Join(parts, sep);
      assert s == [p[0]] + Join(tail, sep) by {
        if |parts| == 1 {
          assert tail == [p[1..]];
        } else {
          assert tail[1..] == parts[1..];
        }
      }
      assert s[0] == p[0] && s[1..] == Join(tail, sep);
      SplitJoin(tail, sep);
      assert p[0] != sep by { assert p[0] == parts[0][0]; }
      assert [[p[0]] + tail[0]] + tail[1..] == parts by {
        assert [p[0]] + p[1..] == p;
        assert tail[1..] == parts[1..];
      }
    }
  }

  /** A text holding the separator splits into at least two pieces. */
  lemma {:induction false} SplitHasSep(s: string, sep: char)
    requires sep in s
    ensures |Split(s, sep)| >= 2
    decreases |s|
  {
    if s[0] != sep {
      assert sep in s[1..] by {
        var k :| 0 <= k < |s| && s[k] == sep;
        assert s[1..][k - 1] == sep;
      }
      SplitHasSep(s[1..], sep);
    }
  }

  /** A piece followed by the separator is the first element of the split. */
  lemma {:induction false} SplitAfter(a: string, sep: char, rest: string)
    requires sep !in a
    ensures Split(a + [sep] + rest, sep) == [a] + Split(rest, sep)
    decreases |a|
  {
    if |a| > 0 {
      assert (a + [sep] + rest)[1..] == a[1..] + [sep] + rest;
      SplitAfter(a[1..], sep, rest);
      assert [a[0]] + a[1..] == a;
    }
  }

  /** Text without the separator splits into itself alone. */
  lemma {:induction false} SplitWhole(a: string, sep: char)
    requires sep !in a
    ensures Split(a, sep) == [a]
    decreases |a|
  {
    if |a| > 0 {
      SplitWhole(a[1..], sep);
      assert [a[0]] + a[1..] == a;
    }
  }

  /** The leading run of non-space characters of `s`. */
  function Word(s: string): (r: string)
    ensures |r| <= |s| && r == s[..|r|] && NoSpace(r)
    ensures |r| == |s| || IsSpace(s[|r|])
    ensures |s| > 0 && !IsSpace(s[0]) ==> |r| > 0
  {
    if |s| == 0 || IsSpace(s[0]) then ""
    else
      var w := Word(s[1..]);
      assert s[..|w| + 1] == [s[0]] + w;
      [s[0]] + w
  }

  /** strings.Fields: the maximal runs of non-space characters, in order. */
  function Fields(s: string): (r: seq<string>)
    ensures forall i :: 0 <= i < |r| ==> |r[i]| > 0 && NoSpace(r[i])
    decreases |s|
  {
    if |s| == 0 then []
    else if IsSpace(s[0]) then Fields(s[1..])
    else
      var w := Word(s);
      [w] + Fields(s[|w|..])
  }

  lemma {:induction false} FieldsSkip(sp: string, s: string)
    requires AllSpace(sp)
    ensures Fields(sp + s) == Fields(s)
    decreases |sp|
  {
    if sp != [] {
      assert (sp + s)[1..] == sp[1..] + s;
      FieldsSkip(sp[1..], s);
    } else {
      assert sp + s == s;
    }
  }

  lemma {:induction false} WordOf(a: string, rest: string)
    requires NoSpace(a) && (rest == [] || IsSpace(rest[0]))
    ensures Word(a + rest) == a
    decreases |a|
  {
    if a != [] {
      assert (a + rest)[1..] == a[1..] + rest;
      WordOf(a[1..], rest);
    } else {
      assert a + rest == rest;
    }
  }

  /** A word followed by a separator is the first field. */
  lemma FieldsStep(a: string, rest: string)
    requires |a| > 0 && NoSpace(a) && (rest == [] || IsSpace(rest[0]))
    ensures Fields(a + rest) == [a] + Fields(rest)
  {
    WordOf(a, rest);
    assert (a + rest)[|a|..] == rest;
  }

  /** Two words separated by white space are exactly the two fields. */
  lemma FieldsOfTwo(a: string, mid: string, b: string)
    requires AllSpace(mid) && |mid| > 0
    requires |a| > 0 && |b| > 0 && NoSpace(a) && NoSpace(b)
    ensures Fields(a + mid + b) == [a, b]
  {
    assert a + mid + b == a + (mid + b);
    FieldsStep(a, mid + b);
    FieldsSkip(mid, b);
    FieldsStep(b, []);
    assert b + [] == b;
  }

  /** strings.Fields splits words joined by single spaces back into those words. */
  lemma {:induction false} FieldsJoin(words: seq<string>)
    requires forall i :: 0 <= i < |words| ==> |words[i]| > 0 && NoSpace(words[i])
    ensures Fields(Join(words, ' ')) == words
    decreases |words|
  {
    if |words| == 1 {
      FieldsStep(words[0], []);
      assert words[0] + [] == words[0];
    } else if |words| > 1 {
      var w := words[0];
      var tail := Join(words[1..], ' ');
      FieldsJoin(words[1..]);
      assert w + [' '] + tail == w + ([' '] + tail);
      FieldsStep(w, [' '] + tail);
      assert AllSpace([' ']);
      FieldsSkip([' '], tail);
      assert words == [w] + words[1..];
    }
  }

  /** Joined non-empty parts begin with the first part's first character and end with the last part's last. */
  lemma {:induction false} JoinEnds(parts: seq<string>, sep: char)
    requires |parts| > 0 && forall i :: 0 <= i < |parts| ==> |parts[i]| > 0
    ensures var s := Join(parts, sep); var last := parts[|parts| - 1];
      |s| > 0 && s[0] == parts[0][0] && s[|s| - 1] == last[|last| - 1]
    decreases |parts|
  {
    if |parts| > 1 {
      JoinEnds(parts[1..], sep);
    }
  }
}
