/** The Python `str` built-ins the response parser relies on: the `in`
    substring test, `split` on a one-character separator, `replace(pat, "")`
    and `strip()` with no arguments. Strings are sequences of characters. */
module PyStr {

  /** `pat` occurs in `s` starting at index `i`. */
  ghost predicate OccursAt(s: string, pat: string, i: int)
  {
    0 <= i && i + |pat| <= |s| && s[i..i + |pat|] == pat
  }

  /** Python `pat in s`: a case-sensitive substring test. */
  predicate Contains(s: string, pat: string)
    decreases |s|
  {
    |pat| <= |s| && (s[..|pat|] == pat || (0 < |s| && Contains(s[1..], pat)))
  }

  /** The scan agrees with the plain definition of "occurs somewhere". */
  lemma {:induction false} ContainsIff(s: string, pat: string)
    ensures Contains(s, pat) <==> exists i :: OccursAt(s, pat, i)
    decreases |s|
  {
    if |pat| <= |s| && s[..|pat|] == pat {
      assert OccursAt(s, pat, 0);
    } else if |pat| <= |s| && 0 < |s| {
      ContainsIff(s[1..], pat);
      if Contains(s[1..], pat) {
        var i :| OccursAt(s[1..], pat, i);
        assert s[i + 1..i + 1 + |pat|] == s[1..][i..i + |pat|];
        assert OccursAt(s, pat, i + 1);
      }
      if exists i :: OccursAt(s, pat, i) {
        var i :| OccursAt(s, pat, i);
        assert i != 0;
        assert s[1..][i - 1..i - 1 + |pat|] == s[i..i + |pat|];
        assert OccursAt(s[1..], pat, i - 1);
      }
    }
  }

  /** A text lacking some character of `pat` does not contain `pat`. */
  lemma NotContainedWithoutChar(s: string, pat: string, c: char)
    requires c in pat && c !in s
    ensures !Contains(s, pat)
  {
    ContainsIff(s, pat);
    if Contains(s, pat) {
      var i :| OccursAt(s, pat, i);
      OccurrenceChars(s, pat, i, c);
      assert false;
    }
  }

  /** Every character of an occurrence of `pat` is a character of `s`. */
  lemma OccurrenceChars(s: string, pat: string, i: int, c: char)
    requires OccursAt(s, pat, i) && c in pat
    ensures c in s
  {
    var k :| 0 <= k < |pat| && pat[k] == c;
    assert s[i + k] == s[i..i + |pat|][k];
  }

  /** An occurrence that starts inside the prefix `a` puts `pat`'s first
      character in `a`. */
  lemma OccurrenceInPrefix(a: string, b: string, pat: string, i: int)
    requires pat != [] && OccursAt(a + b, pat, i) && i < |a|
    ensures pat[0] in a
  {
    assert a[i] == (a + b)[i..i + |pat|][0];
  }

  /** No occurrence of `pat` can start inside a prefix that lacks `pat`'s
      first character, so every occurrence lies in the rest. */
  lemma ContainsPastPrefix(a: string, b: string, pat: string)
    requires pat != [] && pat[0] !in a
    ensures Contains(a + b, pat) ==> Contains(b, pat)
  {
    ContainsIff(a + b, pat);
    ContainsIff(b, pat);
    if Contains(a + b, pat) {
      var i :| OccursAt(a + b, pat, i);
      if i < |a| {
        OccurrenceInPrefix(a, b, pat, i);
        assert false;
      }
      assert b[i - |a|..i - |a| + |pat|] == (a + b)[i..i + |pat|];
      assert OccursAt(b, pat, i - |a|);
    }
  }

  /** Number of non-overlapping occurrences of `pat` met scanning left to
      right, each search resuming after the previous match (Python
      `s.count(pat)`). */
  function Count(s: string, pat: string): nat
    requires pat != []
    decreases |s|
  {
    if |s| < |pat| then 0
    else if s[..|pat|] == pat then 1 + Count(s[|pat|..], pat)
    else Count(s[1..], pat)
  }

  /** Python `s.replace(pat, "")` for a non-empty `pat`: one left-to-right
      pass that deletes every non-overlapping occurrence. Text that the
      deletions bring together is not searched again. */
  function RemoveAll(s: string, pat: string): string
    requires pat != []
    decreases |s|
  {
    if |s| < |pat| then s
    else if s[..|pat|] == pat then RemoveAll(s[|pat|..], pat)
    else [s[0]] + RemoveAll(s[1..], pat)
  }

  /** Each deletion removes exactly `|pat|` characters. */
  lemma {:induction false} RemoveAllLength(s: string, pat: string)
    requires pat != []
    ensures |RemoveAll(s, pat)| == |s| - |pat| * Count(s, pat)
    decreases |s|
  {
    if |s| < |pat| {
      assert RemoveAll(s, pat) == s && Count(s, pat) == 0;
    } else if s[..|pat|] == pat {
      var t := s[|pat|..];
      assert RemoveAll(s, pat) == RemoveAll(t, pat);
      assert Count(s, pat) == 1 + Count(t, pat);
      RemoveAllLength(t, pat);
      Distribute(|pat|, Count(t, pat));
    } else {
      var t := s[1..];
      assert RemoveAll(s, pat) == [s[0]] + RemoveAll(t, pat);
      assert Count(s, pat) == Count(t, pat);
      RemoveAllLength(t, pat);
    }
  }

  lemma Distribute(a: nat, b: nat)
    ensures a * (1 + b) == a + a * b
  {
  }

  /** The pass finds something to delete exactly when `pat` occurs. */
  lemma {:induction false} CountPositiveIff(s: string, pat: string)
    requires pat != []
    ensures Count(s, pat) > 0 <==> Contains(s, pat)
    decreases |s|
  {
    if |s| >= |pat| && s[..|pat|] != pat {
      CountPositiveIff(s[1..], pat);
    }
  }

  /** `replace(pat, "")` leaves `s` as it is exactly when `pat` does not
      occur in it; otherwise the result is strictly shorter. */
  lemma {:induction false} RemoveAllUnchangedIff(s: string, pat: string)
    requires pat != []
    ensures RemoveAll(s, pat) == s <==> !Contains(s, pat)
    ensures Contains(s, pat) ==> |RemoveAll(s, pat)| < |s|
  {
    CountPositiveIff(s, pat);
    RemoveAllLength(s, pat);
    if !Contains(s, pat) {
      RemoveAllAbsent(s, pat);
    } else {
      assert |pat| * Count(s, pat) >= |pat|;
    }
  }

  /** A leading occurrence is deleted and the scan resumes right after it. */
  lemma RemoveAllLeading(pat: string, t: string)
    requires pat != []
    ensures RemoveAll(pat + t, pat) == RemoveAll(t, pat)
  {
    assert (pat + t)[..|pat|] == pat;
    assert (pat + t)[|pat|..] == t;
  }

  /** A text without `pat` loses nothing at its head and still lacks `pat`
      once its first character is dropped. */
  lemma AbsentHeadTail(h: string, pat: string)
    requires |pat| <= |h| && !Contains(h, pat)
    ensures h[..|pat|] != pat
    ensures 0 < |h| ==> !Contains(h[1..], pat)
  {
  }

  /** Where `pat` does not start at the head, the pass keeps the first
      character and carries on with the rest. */
  lemma RemoveAllSkip(s: string, pat: string)
    requires pat != [] && |pat| <= |s| && s[..|pat|] != pat
    ensures RemoveAll(s, pat) == [s[0]] + RemoveAll(s[1..], pat)
  {
  }

  /** The pass keeps everything before the leftmost occurrence of `pat`,
      deletes that occurrence and resumes right after it. `a` together with
      all but the last character of `pat` holding no `pat` is what makes the
      occurrence after `a` the leftmost one. */
  lemma {:induction false} RemoveAllFirst(a: string, pat: string, b: string)
    requires pat != [] && !Contains(a + pat[..|pat| - 1], pat)
    ensures RemoveAll(a + pat + b, pat) == a + RemoveAll(b, pat)
    decreases |a|
  {
    if a == [] {
      assert a + pat + b == pat + b;
      RemoveAllLeading(pat, b);
      assert a + RemoveAll(b, pat) == RemoveAll(b, pat);
    } else {
      RemoveAllFirstStep(a, pat, b);
      RemoveAllFirst(a[1..], pat, b);
      calc {
        RemoveAll(a + pat + b, pat);
        [a[0]] + RemoveAll(a[1..] + pat + b, pat);
        [a[0]] + (a[1..] + RemoveAll(b, pat));
        { assert [a[0]] + a[1..] == a; }
        a + RemoveAll(b, pat);
      }
    }
  }

  /** Before the leftmost occurrence, the pass keeps one character and the
      rest of the prefix still holds no occurrence. */
  lemma RemoveAllFirstStep(a: string, pat: string, b: string)
    requires pat != [] && a != [] && !Contains(a + pat[..|pat| - 1], pat)
    ensures RemoveAll(a + pat + b, pat) == [a[0]] + RemoveAll(a[1..] + pat + b, pat)
    ensures !Contains(a[1..] + pat[..|pat| - 1], pat)
  {
    var s := a + pat + b;
    var h := a + pat[..|pat| - 1];
    assert s[..|pat|] != pat by {
      AbsentHeadTail(h, pat);
      assert s[..|pat|] == h[..|pat|];
    }
    RemoveAllSkip(s, pat);
    assert s[1..] == a[1..] + pat + b;
    assert !Contains(a[1..] + pat[..|pat| - 1], pat) by {
      AbsentHeadTail(h, pat);
      assert h[1..] == a[1..] + pat[..|pat| - 1];
    }
  }

  lemma {:induction false} RemoveAllAbsent(s: string, pat: string)
    requires pat != [] && !Contains(s, pat)
    ensures RemoveAll(s, pat) == s
    decreases |s|
  {
    if |s| >= |pat| {
      RemoveAllAbsent(s[1..], pat);
      assert [s[0]] + s[1..] == s;
    }
  }

  /** Python `s.split(sep)` for a one-character separator: the pieces
      between separators, empty pieces kept; never an empty list. */
  function Split(s: string, sep: char): (parts: seq<string>)
    ensures |parts| >= 1
    ensures forall p :: p in parts ==> sep !in p
    decreases |s|
  {
    if s == [] then [[]]
    else
      var rest := Split(s[1..], sep);
      if s[0] == sep then [[]] + rest
      else [[s[0]] + rest[0]] + rest[1..]
  }

  /** Python `sep.join(parts)` for a one-character separator. */
  function Join(parts: seq<string>, sep: char): string
  {
    if |parts| == 0 then []
    else if |parts| == 1 then parts[0]
    else parts[0] + [sep] + Join(parts[1..], sep)
  }

  /** Splitting loses nothing: joining the pieces gives the text back. */
  lemma {:induction false} JoinSplit(s: string, sep: char)
    ensures Join(Split(s, sep), sep) == s
    decreases |s|
  {
    if s != [] {
      var rest := Split(s[1..], sep);
      JoinSplit(s[1..], sep);
      if s[0] == sep {
        assert Split(s, sep) == [[]] + rest;
        assert ([[]] + rest)[1..] == rest;
      } else {
        var parts := Split(s, sep);
        assert parts == [[s[0]] + rest[0]] + rest[1..];
        if |rest| == 1 {
          assert Join(rest, sep) == rest[0];
        } else {
          assert parts[1..] == rest[1..];
          assert Join(rest, sep) == rest[0] + [sep] + Join(rest[1..], sep);
        }
      }
    }
  }

  /** A piece without separators followed by a separator splits off as one piece. */
  lemma {:induction false} SplitPiece(p: string, t: string, sep: char)
    requires sep !in p
    ensures Split(p + [sep] + t, sep) == [p] + Split(t, sep)
    decreases |p|
  {
    if p == [] {
      assert [] + [sep] + t == [sep] + t;
      assert ([sep] + t)[1..] == t;
    } else {
      SplitPiece(p[1..], t, sep);
      assert (p + [sep] + t)[1..] == p[1..] + [sep] + t;
      assert [p[0]] + p[1..] == p;
    }
  }

  /** A piece without separators splits into itself. */
  lemma {:induction false} SplitWhole(p: string, sep: char)
    requires sep !in p
    ensures Split(p, sep) == [p]
    decreases |p|
  {
    if p != [] {
      SplitWhole(p[1..], sep);
      assert [p[0]] + p[1..] == p;
    }
  }

  /** Joining pieces that contain no separator and splitting again gives the pieces back. */
  lemma {:induction false} SplitJoin(parts: seq<string>, sep: char)
    requires |parts| >= 1
    requires forall p :: p in parts ==> sep !in p
    ensures Split(Join(parts, sep), sep) == parts
    decreases |parts|
  {
    if |parts| == 1 {
      SplitWhole(parts[0], sep);
    } else {
      assert parts[0] in parts;
      forall p | p in parts[1..] ensures sep !in p {
        assert p in parts;
      }
      SplitJoin(parts[1..], sep);
      SplitPiece(parts[0], Join(parts[1..], sep), sep);
      assert [parts[0]] + parts[1..] == parts;
    }
  }

  /** The number of pieces is one more than the number of separators. */
  lemma {:induction false} SplitCount(s: string, sep: char)
    ensures |Split(s, sep)| == multiset(s)[sep] + 1
    decreases |s|
  {
    if s != [] {
      SplitCount(s[1..], sep);
      assert s == [s[0]] + s[1..];
      assert multiset(s) == multiset([s[0]]) + multiset(s[1..]);
    }
  }

  /** The characters Python's `str.isspace()` accepts; `strip()` removes these. */
  predicate IsSpace(c: char)
  {
    c in {'\t', '\n', '\U{000B}', '\U{000C}', '\r', '\U{001C}', '\U{001D}', '\U{001E}', '\U{001F}',
          ' ', '\U{0085}', '\U{00A0}', '\U{1680}',
          '\U{2000}', '\U{2001}', '\U{2002}', '\U{2003}', '\U{2004}', '\U{2005}', '\U{2006}',
          '\U{2007}', '\U{2008}', '\U{2009}', '\U{200A}',
          '\U{2028}', '\U{2029}', '\U{202F}', '\U{205F}', '\U{3000}'}
  }

  predicate AllSpace(s: string)
  {
    forall k :: 0 <= k < |s| ==> IsSpace(s[k])
  }

  /** Neither starts nor ends with whitespace. */
  predicate Trimmed(v: string)
  {
    v == [] || (!IsSpace(v[0]) && !IsSpace(v[|v| - 1]))
  }

  /** Python `s.lstrip()`. */
  function LStrip(s: string): string
    decreases |s|
  {
    if |s| > 0 && IsSpace(s[0]) then LStrip(s[1..]) else s
  }

  /** `lstrip()` drops the leading whitespace and nothing else. */
  lemma {:induction false} LStripShape(s: string)
    ensures |LStrip(s)| <= |s| && LStrip(s) == s[|s| - |LStrip(s)|..]
    ensures AllSpace(s[..|s| - |LStrip(s)|])
    ensures LStrip(s) == [] || !IsSpace(LStrip(s)[0])
    decreases |s|
  {
    if |s| > 0 && IsSpace(s[0]) {
      LStripShape(s[1..]);
    }
  }

  /** Python `s.rstrip()`. */
  function RStrip(s: string): string
    decreases |s|
  {
    if |s| > 0 && IsSpace(s[|s| - 1]) then RStrip(s[..|s| - 1]) else s
  }

  /** `rstrip()` drops the trailing whitespace and nothing else. */
  lemma {:induction false} RStripShape(s: string)
    ensures |RStrip(s)| <= |s| && RStrip(s) == s[..|RStrip(s)|]
    ensures AllSpace(s[|RStrip(s)|..])
    ensures RStrip(s) == [] || !IsSpace(RStrip(s)[|RStrip(s)| - 1])
    decreases |s|
  {
    if |s| > 0 && IsSpace(s[|s| - 1]) {
      var init := s[..|s| - 1];
      assert RStrip(s) == RStrip(init);
      RStripShape(init);
      var n := |RStrip(s)|;
      calc {
        s[..n];
        { assert s == init + [s[|s| - 1]]; }
        (init + [s[|s| - 1]])[..n];
        init[..n];
      }
      calc {
        s[n..];
        { assert s == init + [s[|s| - 1]]; }
        (init + [s[|s| - 1]])[n..];
        init[n..] + [s[|s| - 1]];
      }
    }
  }

  /** Python `s.strip()` with no arguments. */
  function Strip(s: string): string
  {
    RStrip(LStrip(s))
  }

  /** What `strip()` keeps neither starts nor ends with whitespace, is a
      contiguous piece of `s` with only whitespace on either side of it, and
      is empty exactly when `s` is all whitespace. */
  lemma StripShape(s: string)
    ensures Trimmed(Strip(s))
    ensures exists i :: OccursAt(s, Strip(s), i) && AllSpace(s[..i]) && AllSpace(s[i + |Strip(s)|..])
    ensures Strip(s) == [] <==> AllSpace(s)
  {
    var l := LStrip(s);
    var r := Strip(s);
    LStripShape(s);
    RStripShape(l);
    var i := |s| - |l|;
    assert s[i..i + |r|] == l[..|r|];
    assert s[i + |r|..] == l[|r|..];
    assert OccursAt(s, r, i);
    if r != [] {
      assert r[0] == l[0];
      assert !IsSpace(s[i]);
    } else {
      assert s == s[..i] + s[i..];
    }
  }

  /** Whitespace padding around a trimmed text is exactly what `strip()` removes. */
  lemma {:induction false} StripPadding(w1: string, v: string, w2: string)
    requires AllSpace(w1) && AllSpace(w2) && Trimmed(v)
    ensures Strip(w1 + v + w2) == v
  {
    LStripSpaces(w1, v + w2);
    assert w1 + v + w2 == w1 + (v + w2);
    if v != [] {
      assert LStrip(v + w2) == v + w2;
    } else {
      assert v + w2 == w2;
      LStripSpaces(w2, []);
      assert w2 + [] == w2;
    }
    RStripSpaces(LStrip(v + w2) [..|v|], w2);
  }

  /** Leading whitespace is all `lstrip()` looks at. */
  lemma {:induction false} LStripSpaces(w: string, t: string)
    requires AllSpace(w)
    ensures LStrip(w + t) == LStrip(t)
    decreases |w|
  {
    if w != [] {
      assert (w + t)[0] == w[0] && IsSpace(w[0]);
      assert (w + t)[1..] == w[1..] + t;
      assert LStrip(w + t) == LStrip((w + t)[1..]);
      LStripSpaces(w[1..], t);
    } else {
      assert w + t == t;
    }
  }

  /** Trailing whitespace is all `rstrip()` looks at. */
  lemma {:induction false} RStripSpaces(t: string, w: string)
    requires AllSpace(w)
    ensures RStrip(t + w) == RStrip(t)
    decreases |w|
  {
    if w != [] {
      assert (t + w)[|t + w| - 1] == w[|w| - 1] && IsSpace(w[|w| - 1]);
      assert (t + w)[..|t + w| - 1] == t + w[..|w| - 1];
      assert RStrip(t + w) == RStrip((t + w)[..|t + w| - 1]);
      RStripSpaces(t, w[..|w| - 1]);
    } else {
      assert t + w == t;
    }
  }

  /** Stripping twice is the same as stripping once. */
  lemma StripIdempotent(s: string)
    ensures Strip(Strip(s)) == Strip(s)
  {
    var r := Strip(s);
    StripShape(s);
    assert LStrip(r) == r;
    assert RStrip(r) == r;
  }
}
