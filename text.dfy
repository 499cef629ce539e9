/**
 * The string operations of Python that the message parser relies on:
 * `str.split(sep)`, `str.strip()`, `str.replace(old, new)` and the code-point
 * order that `sorted` uses on strings.
 */
module Text {

  /** Characters for which Python's `str.isspace()` holds; `str.strip()` removes these. */
  predicate IsSpace(c: char)
  {
    || c == ' '
    || '\t' <= c <= '\r'
    || '\U{1c}' <= c <= '\U{1f}'
    || c == '\U{85}' || c == '\U{a0}' || c == '\U{1680}'
    || '\U{2000}' <= c <= '\U{200a}'
    || c == '\U{2028}' || c == '\U{2029}' || c == '\U{202f}' || c == '\U{205f}' || c == '\U{3000}'
  }

  predicate AllSpace(s: string)
  {
    forall k :: 0 <= k < |s| ==> IsSpace(s[k])
  }

  /** Number of occurrences of `c` in `s`. */
  function Count(s: string, c: char): nat
  {
    if s == [] then 0 else (if s[0] == c then 1 else 0) + Count(s[1..], c)
  }

  lemma {:induction false} CountAppend(a: string, b: string, c: char)
    ensures Count(a + b, c) == Count(a, c) + Count(b, c)
  {
    if a != [] {
      assert (a + b)[1..] == a[1..] + b;
      CountAppend(a[1..], b, c);
    } else {
      assert a + b == b;
    }
  }

  lemma {:induction false} CountZero(s: string, c: char)
    ensures Count(s, c) == 0 <==> c !in s
  {
    if s != [] {
      CountZero(s[1..], c);
      assert s == [s[0]] + s[1..];
    }
  }

  // ---------------------------------------------------------------- split

  /**
   * Python's `s.split(sep)` for a one-character separator: the pieces between
   * separators, empty pieces included, so there is always one more piece than
   * there are separators and no piece contains the separator.
   */
  function Split(s: string, sep: char): (parts: seq<string>)
    ensures |parts| == Count(s, sep) + 1
    ensures forall i :: 0 <= i < |parts| ==> sep !in parts[i]
  {
    if s == [] then [""]
    else
      var rest := Split(s[1..], sep);
      if s[0] == sep then [""] + rest
      else [[s[0]] + rest[0]] + rest[1..]
  }

  /** Python's `sep.join(parts)`. */
  function Join(parts: seq<string>, sep: char): string
  {
    if parts == [] then ""
    else if |parts| == 1 then parts[0]
    else parts[0] + [sep] + Join(parts[1..], sep)
  }

  /** Joining the pieces of a split gives back the original text. */
  lemma {:induction false} JoinSplit(s: string, sep: char)
    ensures Join(Split(s, sep), sep) == s
  {
    if s != [] {
      var rest := Split(s[1..], sep);
      JoinSplit(s[1..], sep);
      if s[0] == sep {
        assert Split(s, sep)[1..] == rest;
      } else {
        var parts := Split(s, sep);
        assert parts[1..] == rest[1..];
        if |rest| > 1 {
          assert rest == [rest[0]] + rest[1..];
        }
      }
    }
  }

  lemma {:induction false} SplitWithoutSeparator(p: string, sep: char)
    requires sep !in p
    ensures Split(p, sep) == [p]
  {
    if p != [] {
      SplitWithoutSeparator(p[1..], sep);
      assert [p[0]] + p[1..] == p;
    }
  }

  lemma {:induction false} SplitPieceThenSeparator(p: string, sep: char, rest: string)
    requires sep !in p
    ensures Split(p + [sep] + rest, sep) == [p] + Split(rest, sep)
  {
    if p == [] {
      assert p + [sep] + rest == [sep] + rest;
      assert ([sep] + rest)[1..] == rest;
    } else {
      assert (p + [sep] + rest)[1..] == p[1..] + [sep] + rest;
      SplitPieceThenSeparator(p[1..], sep, rest);
      assert [p[0]] + p[1..] == p;
    }
  }

  /** Splitting a join of separator-free pieces gives back the pieces. */
  lemma {:induction false} SplitJoin(parts: seq<string>, sep: char)
    requires |parts| > 0
    requires forall i :: 0 <= i < |parts| ==> sep !in parts[i]
    ensures Split(Join(parts, sep), sep) == parts
  {
    if |parts| == 1 {
      SplitWithoutSeparator(parts[0], sep);
    } else {
      SplitJoin(parts[1..], sep);
      SplitPieceThenSeparator(parts[0], sep, Join(parts[1..], sep));
      assert [parts[0]] + parts[1..] == parts;
    }
  }

  // ---------------------------------------------------------------- strip

  /** Length of the whitespace run at the start of `s`. */
  function LeadingSpaces(s: string): (n: nat)
    ensures n <= |s|
    ensures forall k :: 0 <= k < n ==> IsSpace(s[k])
    ensures n < |s| ==> !IsSpace(s[n])
  {
    if s == [] || !IsSpace(s[0]) then 0
    else
      var n := LeadingSpaces(s[1..]);
      assert forall k :: 1 <= k < n + 1 ==> s[k] == s[1..][k - 1];
      1 + n
  }

  /** Length of the whitespace run at the end of `s`. */
  function TrailingSpaces(s: string): (n: nat)
    ensures n <= |s|
    ensures forall k :: |s| - n <= k < |s| ==> IsSpace(s[k])
    ensures n < |s| ==> !IsSpace(s[|s| - n - 1])
  {
    if s == [] || !IsSpace(s[|s| - 1]) then 0
    else
      var n := TrailingSpaces(s[..|s| - 1]);
      assert forall k :: |s| - 1 - n <= k < |s| - 1 ==> s[k] == s[..|s| - 1][k];
      1 + n
  }

  /**
   * Python's `s.strip()`: `s` with its leading and trailing whitespace removed;
   * when not empty it starts and ends with a non-whitespace character.
   */
  function Trim(s: string): (t: string)
    ensures |t| <= |s|
    ensures t == [] || (!IsSpace(t[0]) && !IsSpace(t[|t| - 1]))
  {
    var rest := s[LeadingSpaces(s)..];
    rest[..|rest| - TrailingSpaces(rest)]
  }

  /** The stripped text is the slice of `s` between two all-whitespace borders. */
  lemma TrimBorders(s: string)
    ensures LeadingSpaces(s) + |Trim(s)| <= |s|
    ensures Trim(s) == s[LeadingSpaces(s)..LeadingSpaces(s) + |Trim(s)|]
    ensures forall k :: 0 <= k < LeadingSpaces(s) ==> IsSpace(s[k])
    ensures forall k :: LeadingSpaces(s) + |Trim(s)| <= k < |s| ==> IsSpace(s[k])
  {
    var lo := LeadingSpaces(s);
    var rest := s[lo..];
    var hi := |rest| - TrailingSpaces(rest);
    assert Trim(s) == rest[..hi];
    assert forall k :: lo + hi <= k < |s| ==> s[k] == rest[k - lo];
  }

  /** Trimming text padded with whitespace on both sides recovers the text. */
  lemma TrimPadded(left: string, t: string, right: string)
    requires AllSpace(left) && AllSpace(right)
    requires t == [] || (!IsSpace(t[0]) && !IsSpace(t[|t| - 1]))
    ensures Trim(left + t + right) == t
  {
    var s := left + t + right;
    var lo := LeadingSpaces(s);
    if t == [] {
      assert AllSpace(s);
    } else {
      assert s[|left|] == t[0];
      assert lo == |left|;
      var rest := s[lo..];
      assert rest == t + right;
      assert rest[|t| - 1] == t[|t| - 1];
      assert TrailingSpaces(rest) == |right|;
    }
  }

  /** Stripping twice is the same as stripping once. */
  lemma TrimIdempotent(s: string)
    ensures Trim(Trim(s)) == Trim(s)
  {
    TrimPadded([], Trim(s), []);
    assert [] + Trim(s) + [] == Trim(s);
  }

  // ---------------------------------------------------------------- replace

  /** Python's `s.replace(from, to)` for single characters. */
  function Replace(s: string, from: char, to: char): (r: string)
    ensures |r| == |s|
    ensures forall i :: 0 <= i < |s| ==> r[i] == (if s[i] == from then to else s[i])
  {
    if s == [] then [] else [if s[0] == from then to else s[0]] + Replace(s[1..], from, to)
  }

  /** Replacing a second time changes nothing. */
  lemma ReplaceIdempotent(s: string, from: char, to: char)
    ensures Replace(Replace(s, from, to), from, to) == Replace(s, from, to)
  {
  }

  /** After replacing, `from` is gone and each of its occurrences now counts as `to`. */
  lemma {:induction false} ReplaceCounts(s: string, from: char, to: char)
    requires from != to
    ensures from !in Replace(s, from, to)
    ensures Count(Replace(s, from, to), to) == Count(s, to) + Count(s, from)
  {
    if s != [] {
      ReplaceCounts(s[1..], from, to);
    }
  }

  /** Both strings have whitespace at exactly the same positions. */
  predicate SameSpacing(a: string, b: string)
  {
    |a| == |b| && forall i :: 0 <= i < |a| ==> (IsSpace(a[i]) <==> IsSpace(b[i]))
  }

  lemma {:induction false} SameSpacingLeading(a: string, b: string)
    requires SameSpacing(a, b)
    ensures LeadingSpaces(a) == LeadingSpaces(b)
  {
    if a != [] && IsSpace(a[0]) {
      assert SameSpacing(a[1..], b[1..]) by {
        forall i | 0 <= i < |a| - 1 ensures IsSpace(a[1..][i]) <==> IsSpace(b[1..][i]) {
          assert a[1..][i] == a[i + 1] && b[1..][i] == b[i + 1];
        }
      }
      SameSpacingLeading(a[1..], b[1..]);
    }
  }

  lemma {:induction false} SameSpacingTrailing(a: string, b: string)
    requires SameSpacing(a, b)
    ensures TrailingSpaces(a) == TrailingSpaces(b)
  {
    if a != [] && IsSpace(a[|a| - 1]) {
      var a', b' := a[..|a| - 1], b[..|b| - 1];
      assert SameSpacing(a', b') by {
        forall i | 0 <= i < |a'| ensures IsSpace(a'[i]) <==> IsSpace(b'[i]) {
          assert a'[i] == a[i] && b'[i] == b[i];
        }
      }
      SameSpacingTrailing(a', b');
    }
  }

  lemma SameSpacingSuffix(a: string, b: string, m: nat)
    requires SameSpacing(a, b) && m <= |a|
    ensures SameSpacing(a[m..], b[m..])
  {
    forall i | 0 <= i < |a| - m ensures IsSpace(a[m..][i]) <==> IsSpace(b[m..][i]) {
      assert a[m..][i] == a[m + i] && b[m..][i] == b[m + i];
    }
  }

  /** Strings with the same spacing are stripped at the same positions. */
  lemma SameSpacingTrim(a: string, b: string)
    requires SameSpacing(a, b)
    ensures |Trim(a)| == |Trim(b)|
    ensures forall i :: 0 <= i < |Trim(a)| ==> Trim(a)[i] == a[LeadingSpaces(a) + i]
    ensures forall i :: 0 <= i < |Trim(b)| ==> Trim(b)[i] == b[LeadingSpaces(a) + i]
  {
    SameSpacingLeading(a, b);
    var m := LeadingSpaces(a);
    SameSpacingSuffix(a, b, m);
    SameSpacingTrailing(a[m..], b[m..]);
  }

  /** Replacing one non-space character by another commutes with stripping. */
  lemma ReplaceTrim(s: string, from: char, to: char)
    requires !IsSpace(from) && !IsSpace(to)
    ensures Trim(Replace(s, from, to)) == Replace(Trim(s), from, to)
  {
    var r := Replace(s, from, to);
    SameSpacingTrim(r, s);
    var t, t', m := Trim(s), Trim(r), LeadingSpaces(r);
    var u := Replace(t, from, to);
    assert |t'| == |u|;
    forall i | 0 <= i < |t'| ensures t'[i] == u[i] {
      calc {
        t'[i];
        r[m + i];
        if s[m + i] == from then to else s[m + i];
        if t[i] == from then to else t[i];
        u[i];
      }
    }
  }

  // ---------------------------------------------------------------- order

  /** Python's `a < b` on `str`: lexicographic by code point, a proper prefix first. */
  predicate Less(a: string, b: string)
  {
    if a == [] then b != []
    else b != [] && (a[0] < b[0] || (a[0] == b[0] && Less(a[1..], b[1..])))
  }

  lemma {:induction false} LessIrreflexive(a: string)
    ensures !Less(a, a)
  {
    if a != [] {
      LessIrreflexive(a[1..]);
    }
  }

  lemma {:induction false} LessTransitive(a: string, b: string, c: string)
    requires Less(a, b) && Less(b, c)
    ensures Less(a, c)
  {
    if a != [] && a[0] == b[0] && b[0] == c[0] {
      LessTransitive(a[1..], b[1..], c[1..]);
    }
  }

  lemma {:induction false} LessTotal(a: string, b: string)
    requires a != b
    ensures Less(a, b) || Less(b, a)
  {
    if a != [] && b != [] && a[0] == b[0] {
      assert a == [a[0]] + a[1..] && b == [b[0]] + b[1..];
      LessTotal(a[1..], b[1..]);
    }
  }
}
