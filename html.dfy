/** `htmlspecialchars($s, ENT_QUOTES, 'UTF-8')`, the escaping the validators apply to
    free-text fields, and its inverse. */
module Html {

  /** The characters ENT_QUOTES escaping replaces. */
  predicate IsSpecial(c: char) {
    c == '&' || c == '"' || c == '\'' || c == '<' || c == '>'
  }

  /** The entity for a special character, or the character itself. */
  function EscapeChar(c: char): string {
    if c == '&' then "&amp;"
    else if c == '"' then "&quot;"
    else if c == '\'' then "&#039;"
    else if c == '<' then "&lt;"
    else if c == '>' then "&gt;"
    else [c]
  }

  /** No character that could open a tag or end an attribute value. */
  predicate IsInert(s: string) {
    forall i :: 0 <= i < |s| ==> s[i] != '<' && s[i] != '>' && s[i] != '"' && s[i] != '\''
  }

  /** `htmlspecialchars($s, ENT_QUOTES, 'UTF-8')` on a well-formed string. */
  function Escape(s: string): (r: string)
    ensures |r| >= |s|
    ensures IsInert(r)
  {
    if s == [] then [] else EscapeChar(s[0]) + Escape(s[1..])
  }

  /** Reverses the five entities above (`htmlspecialchars_decode` with ENT_QUOTES). */
  function Unescape(s: string): string
    decreases |s|
  {
    if |s| >= 5 && s[..5] == "&amp;" then "&" + Unescape(s[5..])
    else if |s| >= 6 && s[..6] == "&quot;" then "\"" + Unescape(s[6..])
    else if |s| >= 6 && s[..6] == "&#039;" then "'" + Unescape(s[6..])
    else if |s| >= 4 && s[..4] == "&lt;" then "<" + Unescape(s[4..])
    else if |s| >= 4 && s[..4] == "&gt;" then ">" + Unescape(s[4..])
    else if s == [] then []
    else [s[0]] + Unescape(s[1..])
  }

  lemma UnescapeAmp(t: string)
    ensures Unescape("&amp;" + t) == "&" + Unescape(t)
  {
    var u := "&amp;" + t;
    assert u[..5] == "&amp;" && u[5..] == t;
  }

  lemma UnescapeQuot(t: string)
    ensures Unescape("&quot;" + t) == "\"" + Unescape(t)
  {
    var u := "&quot;" + t;
    assert u[..6] == "&quot;" && u[6..] == t;
    assert u[..5] != "&amp;" by { assert u[1] == 'q'; }
  }

  lemma UnescapeApos(t: string)
    ensures Unescape("&#039;" + t) == "'" + Unescape(t)
  {
    var u := "&#039;" + t;
    assert u[..6] == "&#039;" && u[6..] == t;
    assert u[1] == '#';
    assert u[..5] != "&amp;" && u[..6] != "&quot;";
  }

  lemma UnescapeLt(t: string)
    ensures Unescape("&lt;" + t) == "<" + Unescape(t)
  {
    var u := "&lt;" + t;
    assert u[..4] == "&lt;" && u[4..] == t;
    assert u[1] == 'l';
    assert !(|u| >= 5 && u[..5] == "&amp;");
    assert !(|u| >= 6 && (u[..6] == "&quot;" || u[..6] == "&#039;"));
  }

  lemma UnescapeGt(t: string)
    ensures Unescape("&gt;" + t) == ">" + Unescape(t)
  {
    var u := "&gt;" + t;
    assert u[..4] == "&gt;" && u[4..] == t;
    assert u[1] == 'g';
    assert !(|u| >= 5 && u[..5] == "&amp;");
    assert !(|u| >= 6 && (u[..6] == "&quot;" || u[..6] == "&#039;"));
    assert u[..4] != "&lt;";
  }

  lemma UnescapePlain(c: char, t: string)
    requires c != '&'
    ensures Unescape([c] + t) == [c] + Unescape(t)
  {
    var u := [c] + t;
    assert u[0] == c && u[1..] == t;
  }

  lemma UnescapeAfterEntity(c: char, t: string)
    ensures Unescape(EscapeChar(c) + t) == [c] + Unescape(t)
  {
    if c == '&' { UnescapeAmp(t); }
    else if c == '"' { UnescapeQuot(t); }
    else if c == '\'' { UnescapeApos(t); }
    else if c == '<' { UnescapeLt(t); }
    else if c == '>' { UnescapeGt(t); }
    else { UnescapePlain(c, t); }
  }

  /** Escaping loses nothing: decoding the escaped text gives back the original. */
  lemma {:induction false} UnescapeEscape(s: string)
    ensures Unescape(Escape(s)) == s
  {
    if s != [] {
      UnescapeAfterEntity(s[0], Escape(s[1..]));
      UnescapeEscape(s[1..]);
    }
  }

  /** Two different inputs never escape to the same output. */
  lemma EscapeInjective(a: string, b: string)
    requires Escape(a) == Escape(b)
    ensures a == b
  {
    UnescapeEscape(a);
    UnescapeEscape(b);
  }

  /** Text free of the special characters is left as it is. */
  lemma {:induction false} EscapePlain(s: string)
    requires forall i :: 0 <= i < |s| ==> !IsSpecial(s[i])
    ensures Escape(s) == s
  {
    if s != [] {
      EscapePlain(s[1..]);
    }
  }
}
