/**
 * PHP's htmlspecialchars with its PHP 8.1 default flags (ENT_QUOTES, double encoding on):
 * each of the five characters that carry meaning in HTML becomes its entity, every other
 * character is kept.
 */
module Html {

  /** The characters htmlspecialchars rewrites under ENT_QUOTES. */
  predicate Special(c: char)
  {
    c == '&' || c == '<' || c == '>' || c == '"' || c == '\''
  }

  /** The characters that can open or close markup or an attribute value. */
  predicate Markup(c: char)
  {
    c == '<' || c == '>' || c == '"' || c == '\''
  }

  function EscapeChar(c: char): (e: string)
    ensures |e| >= 1 && (Special(c) <==> e != [c])
    ensures forall i :: 0 <= i < |e| ==> !Markup(e[i])
  {
    match c
    case '&' => "&amp;"
    case '<' => "&lt;"
    case '>' => "&gt;"
    case '"' => "&quot;"
    case '\'' => "&#039;"
    case _ => [c]
  }

  /** htmlspecialchars(s): no character that can open markup or end an attribute survives. */
  function Escape(s: string): (r: string)
    ensures |r| >= |s|
    ensures forall i :: 0 <= i < |r| ==> !Markup(r[i])
  {
    if s == [] then []
    else
      var e, rest := EscapeChar(s[0]), Escape(s[1..]);
      assert forall i :: 0 <= i < |e + rest| ==> (e + rest)[i] == if i < |e| then e[i] else rest[i - |e|];
      e + rest
  }

  /** The five entities decoded back, in the same left-to-right scan; any other text is kept. */
  function Unescape(s: string): string
    decreases |s|
  {
    if s == [] then []
    else if |s| >= 5 && s[..5] == "&amp;" then "&" + Unescape(s[5..])
    else if |s| >= 4 && s[..4] == "&lt;" then "<" + Unescape(s[4..])
    else if |s| >= 4 && s[..4] == "&gt;" then ">" + Unescape(s[4..])
    else if |s| >= 6 && s[..6] == "&quot;" then "\"" + Unescape(s[6..])
    else if |s| >= 6 && s[..6] == "&#039;" then "'" + Unescape(s[6..])
    else [s[0]] + Unescape(s[1..])
  }

  lemma UnescapeAmp(t: string)
    ensures Unescape("&amp;" + t) == "&" + Unescape(t)
  {
    var s := "&amp;" + t;
    assert s[..5] == "&amp;" && s[5..] == t;
  }

  /** The two four-character entities, &lt; and &gt;. */
  lemma UnescapeShortEntity(c: char, t: string)
    requires c == '<' || c == '>'
    ensures Unescape(EscapeChar(c) + t) == [c] + Unescape(t)
  {
    var s := EscapeChar(c) + t;
    assert s[..4] == EscapeChar(c) && s[4..] == t;
    assert s[1] == (if c == '<' then 'l' else 'g');
  }

  /** The two six-character entities, &quot; and &#039;. */
  lemma UnescapeLongEntity(c: char, t: string)
    requires c == '"' || c == '\''
    ensures Unescape(EscapeChar(c) + t) == [c] + Unescape(t)
  {
    var s := EscapeChar(c) + t;
    assert s[..6] == EscapeChar(c) && s[6..] == t;
    assert s[1] == (if c == '"' then 'q' else '#');
  }

  lemma UnescapePlain(c: char, t: string)
    requires !Special(c)
    ensures Unescape([c] + t) == [c] + Unescape(t)
  {
    var s := [c] + t;
    assert s[0] == c && s[1..] == t;
    assert c != '&';
    assert forall n :: 1 <= n <= |s| ==> s[..n][0] == c;
  }

  lemma UnescapeStep(c: char, t: string)
    ensures Unescape(EscapeChar(c) + t) == [c] + Unescape(t)
  {
    if c == '&' {
      UnescapeAmp(t);
    } else if c == '<' || c == '>' {
      UnescapeShortEntity(c, t);
    } else if c == '"' || c == '\'' {
      UnescapeLongEntity(c, t);
    } else {
      UnescapePlain(c, t);
    }
  }

  /** Decoding the escaped text gives the text back: no information is lost. */
  lemma {:induction false} UnescapeEscape(s: string)
    ensures Unescape(Escape(s)) == s
  {
    if s != [] {
      UnescapeStep(s[0], Escape(s[1..]));
      UnescapeEscape(s[1..]);
      assert s == [s[0]] + s[1..];
    }
  }

  /** Escaping changes a string exactly when it holds one of the five characters. */
  lemma {:induction false} EscapeIdentity(s: string)
    ensures Escape(s) == s <==> forall i :: 0 <= i < |s| ==> !Special(s[i])
  {
    if s != [] {
      EscapeIdentity(s[1..]);
      assert s == [s[0]] + s[1..];
      if Special(s[0]) {
        var e := EscapeChar(s[0]);
        assert Escape(s) == e + Escape(s[1..]);
        if |e| == 1 {
          assert e != [s[0]];
          assert Escape(s)[0] != s[0];
        } else {
          assert |Escape(s)| > |s|;
        }
      } else {
        assert forall i :: 1 <= i < |s| ==> s[i] == s[1..][i - 1];
      }
    }
  }

  /** Escaping works character by character, so it distributes over concatenation. */
  lemma {:induction false} EscapeAppend(a: string, b: string)
    ensures Escape(a + b) == Escape(a) + Escape(b)
  {
    if a == [] {
      assert a + b == b;
    } else {
      assert (a + b)[0] == a[0] && (a + b)[1..] == a[1..] + b;
      EscapeAppend(a[1..], b);
    }
  }
}
