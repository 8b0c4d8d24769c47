/** escapeHTML: the text substitution applied to the name, company, domain
    and summary of a record before they are written into the page markup, and
    to toast messages. The URL fields and the id go into attributes unescaped. */
module Html {

  /** The five characters escapeHTML replaces. */
  predicate IsSpecial(c: char) {
    c == '&' || c == '<' || c == '>' || c == '"' || c == '\''
  }

  /** The characters that can never appear in escaped output. */
  predicate IsMarkup(c: char) {
    c == '<' || c == '>' || c == '"' || c == '\''
  }

  predicate NoSpecial(s: string) {
    forall i :: 0 <= i < |s| ==> !IsSpecial(s[i])
  }

  /** The substitution table of escapeHTML. */
  function EscapeChar(c: char): (r: string)
    ensures |r| >= 1
    ensures forall i :: 0 <= i < |r| ==> !IsMarkup(r[i])
    ensures IsSpecial(c) <==> r != [c]
    ensures IsSpecial(c) ==> r[0] == '&' && |r| > 1
  {
    match c
    case '&' => "&amp;"
    case '<' => "&lt;"
    case '>' => "&gt;"
    case '"' => "&quot;"
    case '\'' => "&#39;"
    case _ => [c]
  }

  /** The regular-expression replacement of escapeHTML: each special character
      becomes its entity, every other character is kept in order. */
  function EscapeHTML(s: string): (r: string)
    ensures |r| >= |s|
    ensures forall i :: 0 <= i < |r| ==> !IsMarkup(r[i])
  {
    if s == [] then [] else EscapeChar(s[0]) + EscapeHTML(s[1..])
  }

  /** The decoder of the five entities escapeHTML produces; any other text is
      read literally. */
  function Unescape(t: string): string
    decreases |t|
  {
    if t == [] then []
    else if t[0] != '&' then [t[0]] + Unescape(t[1..])
    else if |t| >= 5 && t[1] == 'a' && t[2] == 'm' && t[3] == 'p' && t[4] == ';' then "&" + Unescape(t[5..])
    else if |t| >= 4 && t[1] == 'l' && t[2] == 't' && t[3] == ';' then "<" + Unescape(t[4..])
    else if |t| >= 4 && t[1] == 'g' && t[2] == 't' && t[3] == ';' then ">" + Unescape(t[4..])
    else if |t| >= 6 && t[1] == 'q' && t[2] == 'u' && t[3] == 'o' && t[4] == 't' && t[5] == ';' then "\"" + Unescape(t[6..])
    else if |t| >= 5 && t[1] == '#' && t[2] == '3' && t[3] == '9' && t[4] == ';' then "'" + Unescape(t[5..])
    else "&" + Unescape(t[1..])
  }

  /** Escaping works character by character: it distributes over concatenation. */
  lemma {:induction false} EscapeAppend(a: string, b: string)
    ensures EscapeHTML(a + b) == EscapeHTML(a) + EscapeHTML(b)
    decreases |a|
  {
    if a == [] {
      assert a + b == b;
    } else {
      assert (a + b)[0] == a[0];
      assert (a + b)[1..] == a[1..] + b;
      EscapeAppend(a[1..], b);
    }
  }

  /** Decoding the entities recovers the original text: no information is lost. */
  lemma {:induction false} UnescapeEscape(s: string)
    ensures Unescape(EscapeHTML(s)) == s
    decreases |s|
  {
    if s != [] {
      UnescapeEscape(s[1..]);
      UnescapeStep(s[0], EscapeHTML(s[1..]));
    }
  }

  /** Decoding one escaped character from the front of the text. */
  lemma UnescapeStep(c: char, rest: string)
    ensures Unescape(EscapeChar(c) + rest) == [c] + Unescape(rest)
  {
    var t := EscapeChar(c) + rest;
    if !IsSpecial(c) {
      assert t[0] == c && t[1..] == rest;
    } else {
      UnescapeEntity(EscapeChar(c), c, rest);
    }
  }

  /** Decoding an entity at the front of the text. */
  lemma UnescapeEntity(e: string, c: char, rest: string)
    requires IsSpecial(c) && e == EscapeChar(c)
    ensures Unescape(e + rest) == [c] + Unescape(rest)
  {
    var t := e + rest;
    assert t[|e|..] == rest;
    assert forall i :: 0 <= i < |e| ==> t[i] == e[i];
  }

  /** The output is exactly as long as the input iff nothing was replaced, and
      then it is the input itself. */
  lemma {:induction false} EscapeLengthIff(s: string)
    ensures |EscapeHTML(s)| == |s| <==> NoSpecial(s)
    ensures NoSpecial(s) ==> EscapeHTML(s) == s
    decreases |s|
  {
    if s != [] {
      EscapeLengthIff(s[1..]);
      if NoSpecial(s[1..]) && !IsSpecial(s[0]) {
        assert NoSpecial(s);
      }
      if NoSpecial(s) {
        assert NoSpecial(s[1..]) by {
          forall i | 0 <= i < |s[1..]| ensures !IsSpecial(s[1..][i]) { assert s[1..][i] == s[i + 1]; }
        }
      }
    }
  }

  /** Every special character leaves an '&' behind, so escaped text that had one
      still holds an '&'. */
  lemma {:induction false} EscapeKeepsAmpersand(s: string)
    requires !NoSpecial(s)
    ensures !NoSpecial(EscapeHTML(s))
    decreases |s|
  {
    if IsSpecial(s[0]) {
      assert EscapeHTML(s)[0] == '&';
    } else {
      assert !NoSpecial(s[1..]) by {
        var i :| 0 <= i < |s| && IsSpecial(s[i]);
        assert s[1..][i - 1] == s[i];
      }
      EscapeKeepsAmpersand(s[1..]);
      var rest := EscapeHTML(s[1..]);
      var i :| 0 <= i < |rest| && IsSpecial(rest[i]);
      assert EscapeHTML(s) == [s[0]] + rest;
      assert EscapeHTML(s)[i + 1] == rest[i];
    }
  }

  /** escapeHTML is not idempotent: escaping twice equals escaping once exactly
      on the strings it leaves unchanged. */
  lemma EscapeIdempotentIff(s: string)
    ensures EscapeHTML(EscapeHTML(s)) == EscapeHTML(s) <==> NoSpecial(s)
  {
    EscapeLengthIff(s);
    if NoSpecial(s) {
    } else {
      EscapeKeepsAmpersand(s);
      EscapeLengthIff(EscapeHTML(s));
    }
  }

  /** A concrete instance: "&" escapes to "&amp;", which escapes to "&amp;amp;". */
  lemma AmpersandIsEscapedAgain()
    ensures EscapeHTML("&") == "&amp;"
    ensures EscapeHTML(EscapeHTML("&")) == "&amp;amp;"
  {
    EscapeAppend("&", "amp;");
    EscapeLengthIff("amp;");
  }
}
