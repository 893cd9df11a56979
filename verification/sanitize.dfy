/**
 * The key sanitiser both brush formatters apply to the style name
 * (XamlStyles/code.ts:92 and :106): every character of the class
 * `[&\/\\#,+()$~%.'":;*?<>{}\s]` is removed, globally.
 */
module Sanitizer {

  /** The punctuation listed in the character class: & / \ # , + ( ) $ ~ % . ' " : ; * ? < > { } */
  predicate IsPunctuation(c: char) {
    || c == '&' || c == '/' || c == '\\' || c == '#' || c == ',' || c == '+' || c == '(' || c == ')'
    || c == '$' || c == '~' || c == '%' || c == '.' || c == '\'' || c == '"' || c == ':' || c == ';'
    || c == '*' || c == '?' || c == '<' || c == '>' || c == '{' || c == '}'
  }

  /**
   * ECMAScript's `\s`: the WhiteSpace and LineTerminator characters
   * (tab, line feed, vertical tab, form feed, carriage return, space,
   * no-break space, the Zs separators, line and paragraph separators, BOM).
   */
  predicate IsJsWhitespace(c: char) {
    || c == '\t' || c == '\n' || c == '\U{000B}' || c == '\U{000C}' || c == '\r' || c == ' '
    || c == '\U{00A0}' || c == '\U{1680}' || '\U{2000}' <= c <= '\U{200A}'
    || c == '\U{2028}' || c == '\U{2029}' || c == '\U{202F}' || c == '\U{205F}'
    || c == '\U{3000}' || c == '\U{FEFF}'
  }

  predicate IsStripped(c: char) {
    IsPunctuation(c) || IsJsWhitespace(c)
  }

  /** No character the sanitiser would remove. */
  predicate IsClean(s: string) {
    forall i :: 0 <= i < |s| ==> !IsStripped(s[i])
  }

  /** `name.replace(/[&\/\\#,+()$~%.'":;*?<>{}\s]/g, "")` */
  function Sanitize(s: string): (r: string)
    ensures IsClean(r)
    ensures |r| <= |s|
    decreases |s|
  {
    if |s| == 0 then []
    else (if IsStripped(s[0]) then [] else [s[0]]) + Sanitize(s[1..])
  }

  /** Sanitising works character by character, left to right: order is kept. */
  lemma {:induction false} SanitizeAppend(a: string, b: string)
    ensures Sanitize(a + b) == Sanitize(a) + Sanitize(b)
    decreases |a|
  {
    if |a| > 0 {
      assert (a + b)[1..] == a[1..] + b;
      SanitizeAppend(a[1..], b);
    } else {
      assert a + b == b;
    }
  }

  /** A character survives exactly when it is not in the stripped class. */
  lemma SanitizeChar(c: char)
    ensures Sanitize([c]) == if IsStripped(c) then [] else [c]
  {
  }

  /** The sanitiser changes a string exactly when it holds a stripped character. */
  lemma {:induction false} SanitizeFixesClean(s: string)
    ensures Sanitize(s) == s <==> IsClean(s)
    decreases |s|
  {
    if |s| > 0 {
      SanitizeFixesClean(s[1..]);
      if IsStripped(s[0]) {
        assert |Sanitize(s)| <= |s[1..]| < |s|;
      }
    }
  }

  lemma SanitizeIdempotent(s: string)
    ensures Sanitize(Sanitize(s)) == Sanitize(s)
  {
    SanitizeFixesClean(Sanitize(s));
  }

  /** Every kept character keeps its number of occurrences; stripped ones vanish. */
  lemma {:induction false} SanitizeCounts(s: string, c: char)
    ensures multiset(Sanitize(s))[c] == if IsStripped(c) then 0 else multiset(s)[c]
    decreases |s|
  {
    if |s| > 0 {
      var t := s[1..];
      var head := if IsStripped(s[0]) then [] else [s[0]];
      SanitizeCounts(t, c);
      assert s == [s[0]] + t;
      assert multiset(s) == multiset([s[0]]) + multiset(t);
      assert Sanitize(s) == head + Sanitize(t);
      assert multiset(Sanitize(s)) == multiset(head) + multiset(Sanitize(t));
    }
  }

  lemma SanitizeMembership(s: string, c: char)
    ensures c in Sanitize(s) <==> c in s && !IsStripped(c)
  {
    SanitizeCounts(s, c);
    assert c in Sanitize(s) <==> c in multiset(Sanitize(s));
    assert c in s <==> c in multiset(s);
  }
}
