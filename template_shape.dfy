/**
 * When does the order of the placeholders not matter? A template is read as a sequence of
 * segments, literal text and `{{key}}` holes. When the text, the keys and the values are
 * free of the braces that could form or break a token, every pass rewrites exactly the holes
 * of its key, so the fold resolves each hole by the first placeholder with that key. With the
 * distinct keys of a PHP array, any reordering then renders the same body.
 */
module TemplateShape {
  import opened Wrappers
  import opened StrReplace
  import opened Template

  datatype Segment = Text(text: string) | Hole(key: string)

  predicate KeyShaped(key: string)
  {
    '{' !in key && '}' !in key
  }

  predicate SegmentShaped(seg: Segment)
  {
    match seg
    case Text(t) => '{' !in t
    case Hole(k) => KeyShaped(k)
  }

  predicate Shaped(segs: seq<Segment>)
  {
    forall i :: 0 <= i < |segs| ==> SegmentShaped(segs[i])
  }

  /** Keys shaped like tokens' contents and values that cannot open a token. */
  predicate PlaceholdersShaped(ps: seq<Placeholder>)
  {
    forall i :: 0 <= i < |ps| ==> KeyShaped(ps[i].0) && '{' !in ps[i].1
  }

  predicate KeysDistinct(ps: seq<Placeholder>)
  {
    forall i, j :: 0 <= i < j < |ps| ==> ps[i].0 != ps[j].0
  }

  function SegmentText(seg: Segment): string
  {
    match seg
    case Text(t) => t
    case Hole(k) => Token(k)
  }

  /** The template text the segments stand for. */
  function Render(segs: seq<Segment>): string
  {
    if segs == [] then [] else SegmentText(segs[0]) + Render(segs[1..])
  }

  /** The value of the first placeholder with this key. */
  function Lookup(ps: seq<Placeholder>, key: string): Option<string>
  {
    if ps == [] then None
    else if ps[0].0 == key then Some(ps[0].1)
    else Lookup(ps[1..], key)
  }

  /** A hole with a placeholder becomes that placeholder's value; text and other holes stay. */
  function Resolve(seg: Segment, ps: seq<Placeholder>): Segment
  {
    match seg
    case Text(t) => seg
    case Hole(k) => if Lookup(ps, k).Some? then Text(Lookup(ps, k).value) else seg
  }

  function ResolveAll(segs: seq<Segment>, ps: seq<Placeholder>): seq<Segment>
  {
    if segs == [] then [] else [Resolve(segs[0], ps)] + ResolveAll(segs[1..], ps)
  }

  /** One pass on the segments: the holes of one key become its value. */
  function Fill(segs: seq<Segment>, key: string, value: string): seq<Segment>
  {
    if segs == [] then []
    else [if segs[0] == Hole(key) then Text(value) else segs[0]] + Fill(segs[1..], key, value)
  }

  /** A token never starts inside another token, except at its first position. */
  lemma TokenNotInside(k1: string, y: string, k: string, i: int)
    requires '{' !in k1
    requires 1 <= i < |Token(k1)|
    ensures !StartsWith((Token(k1) + y)[i..], Token(k))
  {
    var s := Token(k1) + y;
    var t := Token(k);
    if i == 1 {
      if k1 == [] {
        assert s[2] == '}';
      } else {
        assert s[2] == k1[0];
      }
      assert s[i..][1] == s[2] != t[1];
    } else {
      if i < |k1| + 2 {
        assert s[i] == k1[i - 2];
      } else {
        assert s[i] == '}';
      }
      assert s[i..][0] == s[i] != t[0];
    }
  }

  /** Two different keys free of braces have tokens neither of which starts the other. */
  lemma DistinctTokens(k1: string, y: string, k: string)
    requires KeyShaped(k1) && KeyShaped(k) && k1 != k
    ensures !StartsWith(Token(k1) + y, Token(k))
  {
    var s := Token(k1) + y;
    var t := Token(k);
    if |t| <= |s| {
      if |k| < |k1| {
        assert s[..|t|][2 + |k|] == k1[|k|] != t[2 + |k|];
      } else if |k| > |k1| {
        assert s[..|t|][2 + |k1|] == '}' != t[2 + |k1|];
      } else {
        assert exists j :: 0 <= j < |k| && k[j] != k1[j];
        var j :| 0 <= j < |k| && k[j] != k1[j];
        assert s[..|t|][2 + j] == k1[j] != t[2 + j];
      }
    }
  }

  lemma PassHole(k: string, y: string, v: string)
    ensures ReplaceAll(Token(k) + y, Token(k), v) == v + ReplaceAll(y, Token(k), v)
  {
    var s := Token(k) + y;
    assert s[..|Token(k)|] == Token(k);
    assert s[|Token(k)|..] == y;
  }

  lemma PassOtherHole(k1: string, y: string, k: string, v: string)
    requires KeyShaped(k1) && KeyShaped(k) && k1 != k
    ensures ReplaceAll(Token(k1) + y, Token(k), v) == Token(k1) + ReplaceAll(y, Token(k), v)
  {
    forall i | 0 <= i < |Token(k1)|
      ensures !StartsWith((Token(k1) + y)[i..], Token(k))
    {
      if i == 0 {
        DistinctTokens(k1, y, k);
        assert (Token(k1) + y)[0..] == Token(k1) + y;
      } else {
        TokenNotInside(k1, y, k, i);
      }
    }
    ReplaceAllSkipsPrefix(Token(k1), y, Token(k), v);
  }

  lemma PassText(t: string, y: string, k: string, v: string)
    requires '{' !in t
    ensures ReplaceAll(t + y, Token(k), v) == t + ReplaceAll(y, Token(k), v)
  {
    forall i | 0 <= i < |t|
      ensures !StartsWith((t + y)[i..], Token(k))
    {
      assert (t + y)[i..][0] == t[i];
    }
    ReplaceAllSkipsPrefix(t, y, Token(k), v);
  }

  /** A pass on the rendered template is the pass on its segments. */
  lemma {:induction false} PassRender(segs: seq<Segment>, k: string, v: string)
    requires Shaped(segs) && KeyShaped(k)
    ensures ReplaceAll(Render(segs), Token(k), v) == Render(Fill(segs, k, v))
    decreases |segs|
  {
    if segs == [] {
      assert ReplaceAll([], Token(k), v) == [];
    } else {
      var rest := Render(segs[1..]);
      assert Shaped(segs[1..]) by {
        forall i | 0 <= i < |segs[1..]| ensures SegmentShaped(segs[1..][i]) {
          assert segs[1..][i] == segs[i + 1];
        }
      }
      PassRender(segs[1..], k, v);
      assert SegmentShaped(segs[0]);
      match segs[0]
      case Text(t) =>
        PassText(t, rest, k, v);
      case Hole(k1) =>
        if k1 == k {
          PassHole(k, rest, v);
        } else {
          PassOtherHole(k1, rest, k, v);
        }
    }
  }

  lemma {:induction false} FillShaped(segs: seq<Segment>, k: string, v: string)
    requires Shaped(segs) && '{' !in v
    ensures Shaped(Fill(segs, k, v))
    ensures |Fill(segs, k, v)| == |segs|
    decreases |segs|
  {
    if segs != [] {
      assert Shaped(segs[1..]) by {
        forall i | 0 <= i < |segs[1..]| ensures SegmentShaped(segs[1..][i]) {
          assert segs[1..][i] == segs[i + 1];
        }
      }
      FillShaped(segs[1..], k, v);
      var f := Fill(segs, k, v);
      assert SegmentShaped(segs[0]);
      forall i | 0 <= i < |f| ensures SegmentShaped(f[i]) {
        if i > 0 {
          assert f[i] == Fill(segs[1..], k, v)[i - 1];
        }
      }
    }
  }

  /** Filling the first placeholder's holes and resolving by the rest is resolving by all of them. */
  lemma {:induction false} FillThenResolve(segs: seq<Segment>, ps: seq<Placeholder>)
    requires ps != []
    ensures ResolveAll(Fill(segs, ps[0].0, ps[0].1), ps[1..]) == ResolveAll(segs, ps)
    decreases |segs|
  {
    if segs != [] {
      FillThenResolve(segs[1..], ps);
    }
  }

  /** The fold on a well-shaped template resolves every hole by the first placeholder with its key. */
  lemma {:induction false} SubstituteRender(segs: seq<Segment>, ps: seq<Placeholder>)
    requires Shaped(segs) && PlaceholdersShaped(ps)
    ensures Substitute(Render(segs), ps) == Render(ResolveAll(segs, ps))
    decreases |ps|
  {
    if ps == [] {
      ResolveNone(segs);
    } else {
      var (k, v) := ps[0];
      assert KeyShaped(k) && '{' !in v;
      PassRender(segs, k, v);
      FillShaped(segs, k, v);
      assert PlaceholdersShaped(ps[1..]) by {
        forall i | 0 <= i < |ps[1..]| ensures KeyShaped(ps[1..][i].0) && '{' !in ps[1..][i].1 {
          assert ps[1..][i] == ps[i + 1];
        }
      }
      SubstituteRender(Fill(segs, k, v), ps[1..]);
      FillThenResolve(segs, ps);
    }
  }

  lemma {:induction false} ResolveNone(segs: seq<Segment>)
    ensures ResolveAll(segs, []) == segs
    decreases |segs|
  {
    if segs != [] {
      ResolveNone(segs[1..]);
      match segs[0]
      case Text(_) =>
      case Hole(_) =>
    }
  }

  /** With distinct keys the first placeholder with a key is the only one. */
  lemma {:induction false} LookupDistinct(ps: seq<Placeholder>, k: string, v: string)
    requires KeysDistinct(ps)
    ensures Lookup(ps, k) == Some(v) <==> (k, v) in ps
    decreases |ps|
  {
    if ps != [] {
      if ps[0].0 == k {
        if (k, v) in ps {
          var j :| 0 <= j < |ps| && ps[j] == (k, v);
          assert j == 0 || ps[0].0 != ps[j].0;
        }
      } else {
        LookupDistinct(ps[1..], k, v);
        assert (k, v) in ps <==> (k, v) in ps[1..] by {
          assert ps == [ps[0]] + ps[1..];
        }
      }
    }
  }

  lemma LookupSamePairs(ps: seq<Placeholder>, qs: seq<Placeholder>, k: string)
    requires KeysDistinct(ps) && KeysDistinct(qs)
    requires multiset(ps) == multiset(qs)
    ensures Lookup(ps, k) == Lookup(qs, k)
  {
    if Lookup(ps, k).Some? {
      var v := Lookup(ps, k).value;
      LookupDistinct(ps, k, v);
      assert (k, v) in multiset(ps);
      LookupDistinct(qs, k, v);
    } else if Lookup(qs, k).Some? {
      var v := Lookup(qs, k).value;
      LookupDistinct(qs, k, v);
      assert (k, v) in multiset(qs);
      LookupDistinct(ps, k, v);
    }
  }

  lemma {:induction false} ResolveAllSamePairs(segs: seq<Segment>, ps: seq<Placeholder>, qs: seq<Placeholder>)
    requires KeysDistinct(ps) && KeysDistinct(qs)
    requires multiset(ps) == multiset(qs)
    ensures ResolveAll(segs, ps) == ResolveAll(segs, qs)
    decreases |segs|
  {
    if segs != [] {
      ResolveAllSamePairs(segs[1..], ps, qs);
      match segs[0]
      case Text(_) =>
      case Hole(k) => LookupSamePairs(ps, qs, k);
    }
  }

  /**
   * Reordering the placeholders of a PHP array (distinct keys) renders the same body, provided
   * the template's text and the values contain no '{' and the keys no brace.
   */
  lemma SubstituteReorder(segs: seq<Segment>, ps: seq<Placeholder>, qs: seq<Placeholder>)
    requires Shaped(segs) && PlaceholdersShaped(ps)
    requires KeysDistinct(ps) && KeysDistinct(qs)
    requires multiset(ps) == multiset(qs)
    ensures Substitute(Render(segs), ps) == Substitute(Render(segs), qs)
  {
    assert PlaceholdersShaped(qs) by {
      forall i | 0 <= i < |qs| ensures KeyShaped(qs[i].0) && '{' !in qs[i].1 {
        assert qs[i] in multiset(ps);
        var j :| 0 <= j < |ps| && ps[j] == qs[i];
      }
    }
    SubstituteRender(segs, ps);
    SubstituteRender(segs, qs);
    ResolveAllSamePairs(segs, ps, qs);
  }

  /** The pass for k copies the two stray braces in front of a token. */
  lemma PassStrayBraces(y: string, k: string, v: string)
    requires KeyShaped(k)
    requires |y| >= 2 && y[0] == '{' && y[1] == '{'
    ensures ReplaceAll("{{" + y, Token(k), v) == "{{" + ReplaceAll(y, Token(k), v)
  {
    var s := "{{" + y;
    forall i | 0 <= i < 2 ensures !StartsWith(s[i..], Token(k)) {
      if |Token(k)| <= |s[i..]| {
        if k == [] {
          assert s[i..][..|Token(k)|][2] == '{' != '}' == Token(k)[2];
        } else {
          assert s[i..][..|Token(k)|][2] == '{' != k[0] == Token(k)[2];
        }
      }
    }
    ReplaceAllSkipsPrefix("{{", y, Token(k), v);
  }

  /** The template of the counterexample below: two stray braces, the token of a, then b and two braces. */
  function StrayTemplate(a: string, b: string): string
  {
    "{{" + (Token(a) + (b + "}}"))
  }

  /** The pass for a removes its token and leaves the token of b. */
  lemma StrayPassA(a: string, b: string)
    requires KeyShaped(a) && KeyShaped(b)
    ensures Pass(StrayTemplate(a, b), (a, "")) == Token(b)
  {
    var tail := b + "}}";
    var ta := Token(a) + tail;
    assert '{' !in tail;
    assert StrayTemplate(a, b) == "{{" + ta;
    PassStrayBraces(ta, a, "");
    PassHole(a, tail, "");
    assert tail + [] == tail;
    PassText(tail, [], a, "");
    assert ReplaceAll([], Token(a), "") == [];
    assert ReplaceAll(ta, Token(a), "") == tail;
    assert "{{" + tail == Token(b);
  }

  /** The pass for b finds nothing in the template itself. */
  lemma StrayPassB(a: string, b: string, v: string)
    requires KeyShaped(a) && KeyShaped(b) && a != b
    ensures Pass(StrayTemplate(a, b), (b, v)) == StrayTemplate(a, b)
  {
    var tail := b + "}}";
    assert '{' !in tail;
    PassStrayBraces(Token(a) + tail, b, v);
    PassOtherHole(a, tail, b, v);
    PassText(tail, [], b, v);
    assert ReplaceAll([], Token(b), v) == [];
    assert tail + [] == tail;
  }

  lemma PassOwnToken(b: string, v: string)
    ensures Pass(Token(b), (b, v)) == v
  {
    PassHole(b, [], v);
    assert Token(b) + [] == Token(b);
    assert ReplaceAll([], Token(b), v) == [];
  }

  /**
   * Without the shape condition the order matters even though no value contains a brace:
   * in "{{{{a}}b}}" removing the token of a leaves the token of b, which the pass for b
   * rewrites only when it runs afterwards.
   */
  lemma OrderMattersAroundStrayBraces(a: string, b: string, v: string)
    requires KeyShaped(a) && KeyShaped(b) && a != b && '{' !in v
    ensures Substitute(StrayTemplate(a, b), [(a, ""), (b, v)]) == v
    ensures Substitute(StrayTemplate(a, b), [(b, v), (a, "")]) == Token(b)
    ensures v != Token(b)
  {
    var t := StrayTemplate(a, b);
    StrayPassA(a, b);
    StrayPassB(a, b, v);
    PassOwnToken(b, v);
    var p1, p2 := [(a, ""), (b, v)], [(b, v), (a, "")];
    assert p1[1..] == [(b, v)] && p2[1..] == [(a, "")];
    assert [(b, v)][1..] == [] && [(a, "")][1..] == [];
    assert Substitute(t, p1) == Substitute(Token(b), [(b, v)]);
    assert Substitute(Token(b), [(b, v)]) == Substitute(v, []);
    assert Substitute(t, p2) == Substitute(t, [(a, "")]);
    assert Substitute(t, [(a, "")]) == Substitute(Token(b), []);
    assert Token(b)[0] == '{';
  }
}
