/**
 The handful of Go `strings` operations the script generator relies on,
 written over `seq<char>`: `Contains`, `Replace(s, old, "", -1)`,
 `TrimSpace`, `Join(xs, "\n")` and `Split(s, sep)` for a one-character
 separator.
 */
module GoStrings {

  /** Go's `unicode.IsSpace`: the Latin-1 spaces plus the other Unicode
      White_Space code points. */
  predicate IsSpace(c: char) {
    || c == '\t' || c == '\n' || c == '\U{0B}' || c == '\U{0C}' || c == '\r' || c == ' '
    || c == '\U{85}' || c == '\U{A0}' || c == '\U{1680}'
    || ('\U{2000}' <= c <= '\U{200A}')
    || c == '\U{2028}' || c == '\U{2029}' || c == '\U{202F}' || c == '\U{205F}' || c == '\U{3000}'
  }

  predicate IsPrefix(p: string, s: string) {
    |p| <= |s| && s[..|p|] == p
  }

  /** `sub` occurs in `s` starting at index `i`. */
  ghost predicate OccursAt(s: string, sub: string, i: int) {
    0 <= i && i + |sub| <= |s| && s[i..i + |sub|] == sub
  }

  lemma OccursAtShift(s: string, sub: string, i: int)
    requires |s| > 0 && 0 <= i
    ensures OccursAt(s, sub, i + 1) <==> OccursAt(s[1..], sub, i)
  {
    if i + 1 + |sub| <= |s| {
      assert s[i + 1..i + 1 + |sub|] == s[1..][i..i + |sub|];
    }
  }

  /** `strings.Contains`. */
  predicate Contains(s: string, sub: string)
    decreases |s|
  {
    IsPrefix(sub, s) || (|s| > 0 && Contains(s[1..], sub))
  }

  /** `Contains` holds exactly when `sub` occurs somewhere in `s`. */
  lemma {:induction false} ContainsOccurrence(s: string, sub: string)
    ensures Contains(s, sub) <==> exists i :: OccursAt(s, sub, i)
    decreases |s|
  {
    if IsPrefix(sub, s) {
      assert OccursAt(s, sub, 0);
    } else if |s| > 0 {
      ContainsOccurrence(s[1..], sub);
      if Contains(s[1..], sub) {
        var j :| OccursAt(s[1..], sub, j);
        OccursAtShift(s, sub, j);
      }
      if exists i :: OccursAt(s, sub, i) {
        var i :| OccursAt(s, sub, i);
        assert i != 0;
        OccursAtShift(s, sub, i - 1);
      }
    }
  }

  /** `strings.Replace(s, pat, "", -1)` for a non-empty `pat`: a single
      left-to-right pass that deletes every leftmost non-overlapping
      occurrence of `pat`. */
  function RemoveAll(s: string, pat: string): (r: string)
    requires |pat| > 0
    ensures |r| <= |s|
    decreases |s|
  {
    if |s| == 0 then
      s
    else if IsPrefix(pat, s) then
      RemoveAll(s[|pat|..], pat)
    else
      [s[0]] + RemoveAll(s[1..], pat)
  }

  /** The removal leaves `s` as it is exactly when `pat` does not occur in
      it; otherwise it makes `s` strictly shorter. */
  lemma {:induction false} RemoveAllUnchanged(s: string, pat: string)
    requires |pat| > 0
    ensures RemoveAll(s, pat) == s <==> !Contains(s, pat)
    ensures Contains(s, pat) ==> |RemoveAll(s, pat)| < |s|
    decreases |s|
  {
    if |s| > 0 && !IsPrefix(pat, s) {
      RemoveAllUnchanged(s[1..], pat);
      assert s == [s[0]] + s[1..];
    }
  }

  /** A string lacking one of the characters of `sub` cannot contain `sub`. */
  lemma AbsentCharNotContained(s: string, sub: string, k: int)
    requires 0 <= k < |sub| && sub[k] !in s
    ensures !Contains(s, sub)
  {
    ContainsOccurrence(s, sub);
  }

  /** A prefix in which no occurrence of `sub` can start does not change
      whether `sub` occurs. */
  lemma {:induction false} ContainsSkip(p: string, s: string, sub: string)
    requires |sub| > 0 && sub[0] !in p
    ensures Contains(p + s, sub) <==> Contains(s, sub)
    decreases |p|
  {
    if |p| > 0 {
      var ps := p + s;
      assert ps[0] == p[0];
      assert !IsPrefix(sub, ps) by {
        assert |sub| <= |ps| ==> ps[..|sub|][0] == ps[0];
      }
      assert ps[1..] == p[1..] + s;
      ContainsSkip(p[1..], s, sub);
    } else {
      assert p + s == s;
    }
  }

  /** An occurrence in two joined texts lies in one of them, or else it
      straddles the join and so holds the first character of the second. */
  lemma ContainsJoin(a: string, b: string, sub: string)
    requires Contains(a + b, sub)
    requires |b| > 0
    ensures Contains(a, sub) || Contains(b, sub) || b[0] in sub
  {
    var ab := a + b;
    ContainsOccurrence(ab, sub);
    var i :| OccursAt(ab, sub, i);
    if i + |sub| <= |a| {
      assert ab[i..i + |sub|] == a[i..i + |sub|];
      assert OccursAt(a, sub, i);
      ContainsOccurrence(a, sub);
    } else if i >= |a| {
      assert ab[i..i + |sub|] == b[i - |a|..i - |a| + |sub|];
      assert OccursAt(b, sub, i - |a|);
      ContainsOccurrence(b, sub);
    } else {
      assert ab[i..i + |sub|][|a| - i] == b[0];
    }
  }

  /** Two texts without `sub` do not have it when joined, provided the
      second starts with a character foreign to `sub`. */
  lemma NotContainsJoin(a: string, b: string, sub: string)
    requires !Contains(a, sub) && !Contains(b, sub)
    requires |b| > 0 && b[0] !in sub
    ensures !Contains(a + b, sub)
  {
    if Contains(a + b, sub) {
      ContainsJoin(a, b, sub);
    }
  }

  /** A leading occurrence of `pat` is dropped. */
  lemma RemoveAllLeading(pat: string, t: string)
    requires |pat| > 0
    ensures RemoveAll(pat + t, pat) == RemoveAll(t, pat)
  {
    assert (pat + t)[..|pat|] == pat;
    assert (pat + t)[|pat|..] == t;
  }

  /** A prefix in which no occurrence of `pat` can start is copied unchanged. */
  lemma {:induction false} RemoveAllKeep(a: string, b: string, pat: string)
    requires |pat| > 0 && pat[0] !in a
    ensures RemoveAll(a + b, pat) == a + RemoveAll(b, pat)
    decreases |a|
  {
    if |a| > 0 {
      var ab := a + b;
      assert ab[0] == a[0] && a[0] != pat[0];
      assert !IsPrefix(pat, ab) by {
        assert |pat| <= |ab| ==> ab[..|pat|][0] == ab[0];
      }
      assert ab[1..] == a[1..] + b;
      assert RemoveAll(ab, pat) == [ab[0]] + RemoveAll(ab[1..], pat);
      RemoveAllKeep(a[1..], b, pat);
      assert [a[0]] + (a[1..] + RemoveAll(b, pat)) == a + RemoveAll(b, pat);
    } else {
      assert a + b == b;
    }
  }

  /** Removal works piecewise across a boundary that no occurrence of `pat`
      can straddle: one whose next character does not appear in `pat`. */
  lemma {:induction false} RemoveAllSplit(a: string, b: string, pat: string)
    requires |pat| > 0 && |b| > 0 && b[0] !in pat
    ensures RemoveAll(a + b, pat) == RemoveAll(a, pat) + RemoveAll(b, pat)
    decreases |a|
  {
    var ab := a + b;
    if |a| == 0 {
      assert ab == b;
    } else if IsPrefix(pat, ab) {
      PrefixStaysLeft(a, b, pat);
      assert ab[|pat|..] == a[|pat|..] + b;
      RemoveAllSplit(a[|pat|..], b, pat);
    } else {
      assert !IsPrefix(pat, a) by {
        if |pat| <= |a| {
          assert ab[..|pat|] == a[..|pat|];
        }
      }
      assert ab[1..] == a[1..] + b;
      RemoveAllSplit(a[1..], b, pat);
    }
  }

  lemma PrefixStaysLeft(a: string, b: string, pat: string)
    requires |b| > 0 && b[0] !in pat && IsPrefix(pat, a + b)
    ensures IsPrefix(pat, a)
  {
    var ab := a + b;
    assert ab[|a|] == b[0];
    assert forall k | 0 <= k < |pat| :: pat[k] == ab[k];
    assert |pat| <= |a|;
    assert ab[..|pat|] == a[..|pat|];
  }

  /** The scan `strings.TrimSpace` makes from the front: the index of the
      first non-space character at or after `i`, or `|s|` when there is
      none. */
  function TrimStart(s: string, i: nat): (lo: nat)
    requires i <= |s|
    requires forall k | 0 <= k < i :: IsSpace(s[k])
    ensures i <= lo <= |s|
    ensures forall k | 0 <= k < lo :: IsSpace(s[k])
    ensures lo < |s| ==> !IsSpace(s[lo])
    decreases |s| - i
  {
    if i < |s| && IsSpace(s[i]) then TrimStart(s, i + 1) else i
  }

  /** The scan from the back, which stops at `lo`: the end of the last
      non-space character before `hi`, or `lo` when there is none. */
  function TrimStop(s: string, lo: nat, hi: nat): (stop: nat)
    requires lo <= hi <= |s|
    requires forall k | hi <= k < |s| :: IsSpace(s[k])
    ensures lo <= stop <= hi
    ensures forall k | stop <= k < |s| :: IsSpace(s[k])
    ensures stop > lo ==> !IsSpace(s[stop - 1])
    decreases hi
  {
    if hi > lo && IsSpace(s[hi - 1]) then TrimStop(s, lo, hi - 1) else hi
  }

  /** `s[lo..hi]` is `s` with its leading and trailing spaces cut away. */
  ghost predicate TrimmedAt(s: string, lo: int, hi: int) {
    && 0 <= lo <= hi <= |s|
    && (forall i | 0 <= i < lo :: IsSpace(s[i]))
    && (forall i | hi <= i < |s| :: IsSpace(s[i]))
    && (lo < hi ==> !IsSpace(s[lo]) && !IsSpace(s[hi - 1]))
  }

  /** A string with neither a leading nor a trailing space. */
  predicate NoOuterSpace(s: string) {
    s == [] || (!IsSpace(s[0]) && !IsSpace(s[|s| - 1]))
  }

  /** `strings.TrimSpace`: `s` with its leading and trailing spaces cut
      away (`TrimSpaceCut` gives the cut, and `TrimSpaceUnique` says it is
      the only one); `s` is its own trim exactly when it has no outer
      space. */
  function TrimSpace(s: string): (r: string)
    ensures NoOuterSpace(r)
    ensures r == s <==> NoOuterSpace(s)
  {
    var lo := TrimStart(s, 0);
    var stop := TrimStop(s, lo, |s|);
    assert |s| > 0 && NoOuterSpace(s) ==> lo == 0 && stop == |s|;
    assert NoOuterSpace(s) ==> s[lo..stop] == s;
    s[lo..stop]
  }

  /** The trim of `s` is the slice between a leading and a trailing run of
      spaces. */
  lemma TrimSpaceCut(s: string) returns (lo: int, hi: int)
    ensures TrimmedAt(s, lo, hi) && TrimSpace(s) == s[lo..hi]
  {
    lo := TrimStart(s, 0);
    hi := TrimStop(s, lo, |s|);
  }

  /** Every non-space character of `s` lies inside any trim cut of `s`. */
  lemma NonSpaceInsideCut(s: string, lo: int, hi: int, k: int)
    requires TrimmedAt(s, lo, hi)
    requires 0 <= k < |s| && !IsSpace(s[k])
    ensures lo <= k < hi
  {
  }

  /** Any cut that removes exactly the outer spaces yields `TrimSpace`. */
  lemma TrimSpaceUnique(s: string, lo: int, hi: int)
    requires TrimmedAt(s, lo, hi)
    ensures TrimSpace(s) == s[lo..hi]
  {
    var lo', hi' := TrimSpaceCut(s);
    assert TrimmedAt(s, lo', hi');
    if lo < hi {
      NonSpaceInsideCut(s, lo', hi', lo);
      NonSpaceInsideCut(s, lo', hi', hi - 1);
      NonSpaceInsideCut(s, lo, hi, lo');
      NonSpaceInsideCut(s, lo, hi, hi' - 1);
    }
  }

  /** Spaces around a string with no outer space are exactly what
      `TrimSpace` removes. */
  lemma TrimSpaceAround(pre: string, x: string, post: string)
    requires forall i | 0 <= i < |pre| :: IsSpace(pre[i])
    requires forall i | 0 <= i < |post| :: IsSpace(post[i])
    requires NoOuterSpace(x)
    ensures TrimSpace(pre + x + post) == x
  {
    var s := pre + x + post;
    assert s[|pre|..|pre| + |x|] == x;
    forall i | |pre| + |x| <= i < |s|
      ensures IsSpace(s[i])
    {
      assert s[i] == post[i - |pre| - |x|];
    }
    assert TrimmedAt(s, |pre|, |pre| + |x|);
    TrimSpaceUnique(s, |pre|, |pre| + |x|);
  }

  /** `strings.Join(xs, "\n")`. */
  function JoinLines(xs: seq<string>): string {
    if |xs| == 0 then ""
    else if |xs| == 1 then xs[0]
    else xs[0] + "\n" + JoinLines(xs[1..])
  }

  /** `strings.Split(s, [sep])`: the pieces between the occurrences of `sep`;
      there is always one more piece than there are separators. */
  function SplitOn(s: string, sep: char): (pieces: seq<string>)
    ensures |pieces| >= 1
    ensures forall k | 0 <= k < |pieces| :: sep !in pieces[k]
  {
    if |s| == 0 then [""]
    else
      var rest := SplitOn(s[1..], sep);
      if s[0] == sep then [""] + rest
      else [[s[0]] + rest[0]] + rest[1..]
  }

  /** The first piece is the text before the first `sep`, or the whole
      text when it has none. */
  lemma {:induction false} SplitOnFirst(s: string, sep: char)
    ensures var p := SplitOn(s, sep)[0];
            |p| <= |s| && s[..|p|] == p && (|p| == |s| || s[|p|] == sep)
    decreases |s|
  {
    if |s| > 0 && s[0] != sep {
      SplitOnFirst(s[1..], sep);
      var q := SplitOn(s[1..], sep)[0];
      assert SplitOn(s, sep)[0] == [s[0]] + q;
      assert s[..|q| + 1] == [s[0]] + s[1..][..|q|];
    }
  }

  lemma {:induction false} SplitOnNoSeparator(x: string, sep: char)
    requires sep !in x
    ensures SplitOn(x, sep) == [x]
    decreases |x|
  {
    if |x| > 0 {
      SplitOnNoSeparator(x[1..], sep);
      assert [x[0]] + x[1..] == x;
    }
  }

  lemma {:induction false} SplitOnAfterPiece(x: string, sep: char, rest: string)
    requires sep !in x
    ensures SplitOn(x + [sep] + rest, sep) == [x] + SplitOn(rest, sep)
    decreases |x|
  {
    if |x| == 0 {
      assert x + [sep] + rest == [sep] + rest;
      assert ([sep] + rest)[1..] == rest;
    } else {
      SplitOnAfterPiece(x[1..], sep, rest);
      assert (x + [sep] + rest)[1..] == x[1..] + [sep] + rest;
      assert [x[0]] + x[1..] == x;
    }
  }

  /** A text holding the separator splits into at least two pieces. */
  lemma {:induction false} SplitOnSeparator(s: string, sep: char)
    requires sep in s
    ensures |SplitOn(s, sep)| >= 2
    decreases |s|
  {
    if s[0] != sep {
      assert sep in s[1..];
      SplitOnSeparator(s[1..], sep);
    }
  }

  /** Splitting a joined text on the line separator gives back the lines,
      provided none of them holds a line separator itself. */
  lemma {:induction false} SplitJoinLines(xs: seq<string>)
    requires |xs| >= 1
    requires forall k | 0 <= k < |xs| :: '\n' !in xs[k]
    ensures SplitOn(JoinLines(xs), '\n') == xs
    decreases |xs|
  {
    if |xs| == 1 {
      SplitOnNoSeparator(xs[0], '\n');
    } else {
      SplitJoinLines(xs[1..]);
      SplitOnAfterPiece(xs[0], '\n', JoinLines(xs[1..]));
      assert [xs[0]] + xs[1..] == xs;
    }
  }
}
