/**
 * EmailSender::loadTemplate's substitution: one str_replace pass per placeholder, in the
 * placeholders' order, each pass working on the output of the previous one.
 */
module Template {
  import opened StrReplace

  /** A placeholder key and the value that replaces its token. PHP arrays keep insertion order. */
  type Placeholder = (string, string)

  /** The token '{{' . key . '}}' that a key's pass searches for. */
  function Token(key: string): (t: string)
    ensures |t| == |key| + 4 && t[0] == '{' && t[1] == '{'
    ensures t[|t| - 2] == '}' && t[|t| - 1] == '}'
    ensures t[2..|t| - 2] == key
  {
    "{{" + key + "}}"
  }

  /** The pass for one placeholder. */
  function Pass(template: string, p: Placeholder): string
  {
    ReplaceAll(template, Token(p.0), p.1)
  }

  /**
   * The foreach over the placeholders: the passes folded from left to right, each on the result
   * of the one before. No placeholders, or placeholders that each map a key to its own token,
   * leave the template as it is.
   */
  function Substitute(template: string, placeholders: seq<Placeholder>): (r: string)
    ensures placeholders == [] ==> r == template
    ensures (forall i :: 0 <= i < |placeholders| ==> placeholders[i].1 == Token(placeholders[i].0)) ==>
      r == template
    decreases |placeholders|
  {
    if placeholders == [] then template
    else Substitute(Pass(template, placeholders[0]), placeholders[1..])
  }

  /** Running the first i passes, then the rest, is the whole fold. */
  lemma {:induction false} SubstituteSplit(template: string, placeholders: seq<Placeholder>, i: nat)
    requires i < |placeholders|
    ensures Substitute(template, placeholders[..i + 1]) == Pass(Substitute(template, placeholders[..i]), placeholders[i])
    decreases i
  {
    var ps := placeholders;
    if i == 0 {
      assert ps[..1][1..] == [];
      assert ps[..1][0] == ps[0];
    } else {
      assert ps[..i + 1][0] == ps[0];
      assert ps[..i + 1][1..] == ps[1..][..i];
      assert ps[..i][0] == ps[0];
      assert ps[..i][1..] == ps[1..][..i - 1];
      SubstituteSplit(Pass(template, ps[0]), ps[1..], i - 1);
    }
  }

  /** Where no placeholder's token occurs in the template, the rendered body is the template exactly. */
  lemma {:induction false} SubstituteWithoutTokens(template: string, placeholders: seq<Placeholder>)
    requires forall i :: 0 <= i < |placeholders| ==> !OccursIn(template, Token(placeholders[i].0))
    ensures Substitute(template, placeholders) == template
    decreases |placeholders|
  {
    if placeholders != [] {
      ReplaceAllAbsent(template, Token(placeholders[0].0), placeholders[0].1);
      SubstituteWithoutTokens(template, placeholders[1..]);
    }
  }

  /** A character that occurs in no key and no value occurs in the rendered body as often as in the template. */
  lemma {:induction false} SubstituteKeepsForeignChar(template: string, placeholders: seq<Placeholder>, c: char)
    requires forall i :: 0 <= i < |placeholders| ==> c !in placeholders[i].0 && c !in placeholders[i].1
    requires c != '{' && c != '}'
    ensures CountChar(Substitute(template, placeholders), c) == CountChar(template, c)
    decreases |placeholders|
  {
    if placeholders != [] {
      var p := placeholders[0];
      assert c !in Token(p.0);
      ReplaceAllKeepsForeignChar(template, Token(p.0), p.1, c);
      SubstituteKeepsForeignChar(Pass(template, p), placeholders[1..], c);
    }
  }

  /**
   * The passes are sequential: a value that carries a later key's token is rewritten by
   * that later pass.
   */
  lemma ValueTokenRewrittenLater(k1: string, k2: string, v: string)
    ensures Substitute(Token(k1), [(k1, Token(k2)), (k2, v)]) == v
  {
    var t1, t2 := Token(k1), Token(k2);
    assert t1 + [] == t1 && t1[|t1|..] == [];
    assert StartsWith(t1, t1);
    assert ReplaceAll(t1, t1, t2) == t2 + ReplaceAll([], t1, t2);
    assert t2[|t2|..] == [];
    assert StartsWith(t2, t2);
    assert ReplaceAll(t2, t2, v) == v + ReplaceAll([], t2, v);
    var ps := [(k1, t2), (k2, v)];
    assert ps[1..] == [(k2, v)] && [(k2, v)][1..] == [];
    assert Pass(t1, ps[0]) == t2;
    assert Substitute(t2, [(k2, v)]) == Substitute(Pass(t2, (k2, v)), []);
  }
}
