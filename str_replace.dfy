/** PHP's str_replace with one search string: every non-overlapping occurrence, found left to right, is replaced. */
module StrReplace {

  predicate StartsWith(s: string, p: string)
  {
    |p| <= |s| && s[..|p|] == p
  }

  predicate OccursAt(s: string, p: string, i: int)
  {
    0 <= i && i + |p| <= |s| && s[i..i + |p|] == p
  }

  predicate OccursIn(s: string, p: string)
  {
    exists i :: 0 <= i <= |s| && OccursAt(s, p, i)
  }

  /**
   * str_replace(pat, rep, s): a left-to-right scan that replaces each occurrence of pat and
   * resumes after it, so occurrences never overlap. An empty search string leaves the subject
   * unchanged, and so does replacing the search string by itself.
   */
  function ReplaceAll(s: string, pat: string, rep: string): (r: string)
    ensures pat == [] ==> r == s
    ensures rep == pat ==> r == s
    decreases |s|
  {
    if pat == [] || s == [] then s
    else if StartsWith(s, pat) then
      assert s == s[..|pat|] + s[|pat|..];
      rep + ReplaceAll(s[|pat|..], pat, rep)
    else
      assert s == [s[0]] + s[1..];
      [s[0]] + ReplaceAll(s[1..], pat, rep)
  }

  /** The number of occurrences ReplaceAll replaces, counted by the same left-to-right scan. */
  function Count(s: string, pat: string): nat
    decreases |s|
  {
    if pat == [] || s == [] then 0
    else if StartsWith(s, pat) then 1 + Count(s[|pat|..], pat)
    else Count(s[1..], pat)
  }

  /** The number of times the character c occurs in s. */
  function CountChar(s: string, c: char): nat
  {
    if s == [] then 0 else (if s[0] == c then 1 else 0) + CountChar(s[1..], c)
  }

  lemma {:induction false} CountCharAppend(a: string, b: string, c: char)
    ensures CountChar(a + b, c) == CountChar(a, c) + CountChar(b, c)
  {
    if a == [] {
      assert a + b == b;
    } else {
      assert (a + b)[1..] == a[1..] + b;
      CountCharAppend(a[1..], b, c);
    }
  }

  lemma {:induction false} CountCharZero(s: string, c: char)
    ensures CountChar(s, c) == 0 <==> c !in s
  {
    if s != [] {
      CountCharZero(s[1..], c);
      assert s == [s[0]] + s[1..];
    }
  }

  /** Each pass changes the length by |rep| - |pat| for every occurrence it replaces. */
  lemma {:induction false} ReplaceAllLength(s: string, pat: string, rep: string)
    ensures |ReplaceAll(s, pat, rep)| == |s| + Count(s, pat) * (|rep| - |pat|)
    decreases |s|
  {
    if pat == [] || s == [] {
    } else if StartsWith(s, pat) {
      var rest := s[|pat|..];
      ReplaceAllLength(rest, pat, rep);
      assert ReplaceAll(s, pat, rep) == rep + ReplaceAll(rest, pat, rep);
      assert Count(s, pat) == Count(rest, pat) + 1;
      assert (Count(rest, pat) + 1) * (|rep| - |pat|) == Count(rest, pat) * (|rep| - |pat|) + (|rep| - |pat|);
    } else {
      ReplaceAllLength(s[1..], pat, rep);
    }
  }

  /** The scan finds an occurrence exactly when the search string occurs somewhere. */
  lemma {:induction false} CountPositive(s: string, pat: string)
    requires pat != []
    ensures Count(s, pat) > 0 <==> OccursIn(s, pat)
    decreases |s|
  {
    if s == [] {
    } else if StartsWith(s, pat) {
      assert OccursAt(s, pat, 0);
    } else {
      CountPositive(s[1..], pat);
      if OccursIn(s, pat) {
        var i :| OccursAt(s, pat, i);
        assert OccursAt(s, pat, i);
        assert i != 0;
        assert s[1..][i - 1..i - 1 + |pat|] == s[i..i + |pat|];
        assert OccursAt(s[1..], pat, i - 1);
      }
      if OccursIn(s[1..], pat) {
        var i :| OccursAt(s[1..], pat, i);
        assert OccursAt(s[1..], pat, i);
        assert s[1..][i..i + |pat|] == s[i + 1..i + 1 + |pat|];
        assert OccursAt(s, pat, i + 1);
      }
    }
  }

  /** A template in which the search string does not occur comes back unchanged. */
  lemma {:induction false} ReplaceAllAbsent(s: string, pat: string, rep: string)
    requires !OccursIn(s, pat)
    ensures ReplaceAll(s, pat, rep) == s
    decreases |s|
  {
    if pat != [] && s != [] {
      if StartsWith(s, pat) {
        assert OccursAt(s, pat, 0);
      }
      if OccursIn(s[1..], pat) {
        var i :| OccursAt(s[1..], pat, i);
        assert OccursAt(s[1..], pat, i);
        assert s[1..][i..i + |pat|] == s[i + 1..i + 1 + |pat|];
        assert OccursAt(s, pat, i + 1);
      }
      ReplaceAllAbsent(s[1..], pat, rep);
      assert s == [s[0]] + s[1..];
    }
  }

  /** A character that is in neither the search string nor the replacement keeps its count. */
  lemma {:induction false} ReplaceAllKeepsForeignChar(s: string, pat: string, rep: string, c: char)
    requires c !in pat && c !in rep
    ensures CountChar(ReplaceAll(s, pat, rep), c) == CountChar(s, c)
    decreases |s|
  {
    CountCharZero(pat, c);
    CountCharZero(rep, c);
    if pat == [] || s == [] {
    } else if StartsWith(s, pat) {
      ReplaceAllKeepsForeignChar(s[|pat|..], pat, rep, c);
      CountCharAppend(rep, ReplaceAll(s[|pat|..], pat, rep), c);
      assert s == pat + s[|pat|..];
      CountCharAppend(pat, s[|pat|..], c);
    } else {
      ReplaceAllKeepsForeignChar(s[1..], pat, rep, c);
      CountCharAppend([s[0]], ReplaceAll(s[1..], pat, rep), c);
      assert s == [s[0]] + s[1..];
      CountCharAppend([s[0]], s[1..], c);
    }
  }

  /**
   * A prefix x at none of whose positions the search string starts is copied through:
   * the scan steps over it one character at a time.
   */
  lemma {:induction false} ReplaceAllSkipsPrefix(x: string, y: string, pat: string, rep: string)
    requires forall i :: 0 <= i < |x| ==> !StartsWith((x + y)[i..], pat)
    ensures ReplaceAll(x + y, pat, rep) == x + ReplaceAll(y, pat, rep)
    decreases |x|
  {
    var s := x + y;
    if pat == [] {
    } else if x == [] {
      assert s == y;
    } else {
      assert !StartsWith(s[0..], pat);
      assert s[0..] == s;
      assert s[1..] == x[1..] + y;
      forall i | 0 <= i < |x[1..]|
        ensures !StartsWith((x[1..] + y)[i..], pat)
      {
        assert (x[1..] + y)[i..] == s[i + 1..];
      }
      ReplaceAllSkipsPrefix(x[1..], y, pat, rep);
      assert ReplaceAll(s, pat, rep) == [x[0]] + ReplaceAll(x[1..] + y, pat, rep);
      assert x == [x[0]] + x[1..];
    }
  }
}
