/** Small prefix-driven scanners used to read brush markup back. */
module Scan {
  import opened Wrappers

  /** The rest of s after the literal p, if s starts with p. */
  function StripPrefix(p: string, s: string): (r: Option<string>)
    ensures r.Some? <==> p <= s
    ensures r.Some? ==> s == p + r.value
  {
    if p <= s then
      assert s == p + s[|p|..];
      Some(s[|p|..])
    else None
  }

  lemma StripPrefixOf(p: string, x: string)
    ensures StripPrefix(p, p + x) == Some(x)
  {
    assert p <= p + x;
    assert (p + x)[|p|..] == x;
  }

  /** Splits s at its first double quote: the text before it, and the rest from the quote on. */
  function UntilQuote(s: string): (r: Option<(string, string)>)
    ensures r.Some? <==> '"' in s
    ensures r.Some? ==> s == r.value.0 + r.value.1 && '"' !in r.value.0
    ensures r.Some? ==> |r.value.1| > 0 && r.value.1[0] == '"'
    decreases |s|
  {
    if |s| == 0 then None
    else if s[0] == '"' then Some(([], s))
    else
      assert s == [s[0]] + s[1..];
      match UntilQuote(s[1..])
      case None => None
      case Some(split) => Some(([s[0]] + split.0, split.1))
  }

  /** Text without a quote, followed by a quote, splits back into the two parts. */
  lemma {:induction false} UntilQuoteOf(a: string, t: string)
    requires '"' !in a && |t| > 0 && t[0] == '"'
    ensures UntilQuote(a + t) == Some((a, t))
    decreases |a|
  {
    if |a| > 0 {
      assert (a + t)[1..] == a[1..] + t;
      assert a == [a[0]] + a[1..];
      UntilQuoteOf(a[1..], t);
    } else {
      assert a + t == t;
    }
  }
}
