/**
 * The two brush formatters, `generateSolidBrush` and `generateGradientBrush`
 * (XamlStyles/code.ts:90-121), and parsers that read their markup back; the
 * round-trip lemmas say each formatter writes exactly the sanitised key and
 * the `#AARRGGBB` colours it was given, in order.
 */
module Brushes {
  import opened Wrappers
  import opened Hex
  import opened Paints
  import opened Sanitizer
  import opened Scan
  import opened Concat

  const SolidOpen: string := "<SolidColorBrush x:Key=\""
  const SolidColorAttr: string := "\" Color=\"#"
  const SolidClose: string := "\" po:Freeze=\"True\"/>"

  /** The gradient header has two spaces before `x:Key` and a literal `r` after the key. */
  const GradientOpen: string := "<LinearGradientBrush  x:Key=\""
  const GradientKeySuffix: string := "r"
  const GradientHeaderEnd: string := "\">\n"
  const StopOpen: string := "    <GradientStop Color=\"#"
  const StopOffsetAttr: string := "\" Offset=\""
  const StopClose: string := "\"/>\n"
  const GradientClose: string := "</LinearGradientBrush>"

  /** A colour as the markup writes it: alpha first. */
  datatype Argb = Argb(a: Byte, r: Byte, g: Byte, b: Byte)

  /** The eight digits after `#`: alpha, red, green, blue. */
  function ArgbHex(c: Argb): (s: string)
    ensures |s| == 8
  {
    HexBytes([c.a, c.r, c.g, c.b])
  }

  /** Reads eight hexadecimal digits as a colour, returning it and the rest. */
  function ParseArgb(s: string): (r: Option<(Argb, string)>)
    ensures r.Some? ==> |s| >= 8 && r.value.1 == s[8..]
  {
    var bytes :- ParseHexBytes(4, s);
    var v := bytes.0;
    Some((Argb(v[0], v[1], v[2], v[3]), bytes.1))
  }

  /** The digits are the four channels' `ColorToHex` texts, alpha first. */
  lemma ArgbHexChannels(c: Argb)
    ensures ArgbHex(c) == ColorToHex(c.a) + ColorToHex(c.r) + ColorToHex(c.g) + ColorToHex(c.b)
  {
    var bs := [c.a, c.r, c.g, c.b];
    assert bs[1..] == [c.r, c.g, c.b];
    assert [c.r, c.g, c.b][1..] == [c.g, c.b];
    assert [c.g, c.b][1..] == [c.b];
    assert [c.b][1..] == [];
    assert HexBytes([c.b]) == ColorToHex(c.b) + [] == ColorToHex(c.b);
    assert HexBytes([c.g, c.b]) == ColorToHex(c.g) + ColorToHex(c.b);
    assert HexBytes([c.r, c.g, c.b]) == ColorToHex(c.r) + (ColorToHex(c.g) + ColorToHex(c.b));
    assert HexBytes(bs) == ColorToHex(c.a) + (ColorToHex(c.r) + (ColorToHex(c.g) + ColorToHex(c.b)));
    Assoc4(ColorToHex(c.a), ColorToHex(c.r), ColorToHex(c.g), ColorToHex(c.b));
  }

  lemma ArgbRoundTrip(c: Argb, rest: string)
    ensures ParseArgb(ArgbHex(c) + rest) == Some((c, rest))
  {
    HexBytesRoundTrip([c.a, c.r, c.g, c.b], rest);
  }

  /** A sanitised key cannot hold the quote that ends the attribute. */
  lemma CleanHasNoQuote(s: string)
    requires IsClean(s)
    ensures '"' !in s
  {
  }

  // ---------------------------------------------------------------- solid

  /**
   * `generateSolidBrush`: the sanitised name as key and `#AARRGGBB` with the
   * alpha taken from the paint's opacity.
   */
  function SolidBrush(name: string, color: Rgb, opacity: Byte): string {
    SolidOpen + Sanitize(name) + SolidColorAttr
      + ArgbHex(Argb(opacity, color.r, color.g, color.b)) + SolidClose
  }

  /** What a solid brush element says: its key and its colour. */
  datatype SolidMarkup = SolidMarkup(key: string, color: Argb)

  function ParseSolidBrush(s: string): Option<SolidMarkup> {
    var afterOpen :- StripPrefix(SolidOpen, s);
    var key :- UntilQuote(afterOpen);
    var afterAttr :- StripPrefix(SolidColorAttr, key.1);
    var color :- ParseArgb(afterAttr);
    var tail :- StripPrefix(SolidClose, color.1);
    if tail == [] then Some(SolidMarkup(key.0, color.0)) else None
  }

  /**
   * Reading a solid brush back gives the sanitised name and the colour with
   * opacity as alpha, followed by red, green and blue.
   */
  lemma SolidBrushRoundTrip(name: string, color: Rgb, opacity: Byte)
    ensures ParseSolidBrush(SolidBrush(name, color, opacity))
         == Some(SolidMarkup(Sanitize(name), Argb(opacity, color.r, color.g, color.b)))
  {
    var key := Sanitize(name);
    var c := Argb(opacity, color.r, color.g, color.b);
    var afterAttr := ArgbHex(c) + SolidClose;
    var afterKey := SolidColorAttr + afterAttr;
    var afterOpen := key + afterKey;
    Assoc5(SolidOpen, key, SolidColorAttr, ArgbHex(c), SolidClose);
    StripPrefixOf(SolidOpen, afterOpen);
    CleanHasNoQuote(key);
    UntilQuoteOf(key, afterKey);
    StripPrefixOf(SolidColorAttr, afterAttr);
    ArgbRoundTrip(c, SolidClose);
    assert SolidClose + [] == SolidClose;
    StripPrefixOf(SolidClose, []);
  }

  /** Two solid brushes are the same text only if key, colour and opacity agree. */
  lemma SolidBrushInjective(n1: string, c1: Rgb, o1: Byte, n2: string, c2: Rgb, o2: Byte)
    requires SolidBrush(n1, c1, o1) == SolidBrush(n2, c2, o2)
    ensures Sanitize(n1) == Sanitize(n2) && c1 == c2 && o1 == o2
  {
    SolidBrushRoundTrip(n1, c1, o1);
    SolidBrushRoundTrip(n2, c2, o2);
  }

  /**
   * A red paint at full opacity named "Primary" is written with colour `#FFFF0000`.
   * The example values arrive as parameters pinned by the precondition rather than
   * as literals in the ensures: with literal arguments the verifier unfolds the whole
   * markup text at once, which costs several times the resource budget used here.
   */
  lemma SolidBrushExample(name: string, red: Rgb, alpha: Byte)
    requires name == "Primary" && red == Rgb(255, 0, 0) && alpha == 255
    ensures SolidBrush(name, red, alpha)
         == SolidOpen + name + SolidColorAttr + ("FF" + "FF" + "00" + "00") + SolidClose
  {
    assert Sanitize(name) == name by {
      SanitizeFixesClean(name);
    }
    var c := Argb(alpha, red.r, red.g, red.b);
    assert ArgbHex(c) == "FF" + "FF" + "00" + "00" by {
      ArgbHexChannels(c);
      ColorToHexExamples();
    }
  }

  // ------------------------------------------------------------- gradient

  /** One `<GradientStop>` line; its alpha is the stop colour's own alpha. */
  function StopLine(stop: GradientStop): string {
    StopOpen + ArgbHex(Argb(stop.color.a, stop.color.r, stop.color.g, stop.color.b))
      + StopOffsetAttr + stop.position + StopClose
  }

  function StopLines(stops: seq<GradientStop>): string {
    if |stops| == 0 then [] else StopLine(stops[0]) + StopLines(stops[1..])
  }

  lemma {:induction false} StopLinesAppend(a: seq<GradientStop>, b: seq<GradientStop>)
    ensures StopLines(a + b) == StopLines(a) + StopLines(b)
    decreases |a|
  {
    if |a| > 0 {
      assert (a + b)[1..] == a[1..] + b;
      StopLinesAppend(a[1..], b);
    } else {
      assert a + b == b;
    }
  }

  lemma StopLinesSnoc(a: seq<GradientStop>, stop: GradientStop)
    ensures StopLines(a + [stop]) == StopLines(a) + StopLine(stop)
  {
    StopLinesAppend(a, [stop]);
    assert [stop][1..] == [];
    assert StopLine(stop) + [] == StopLine(stop);
  }

  /** One more turn of the `forEach` appends the next stop's line. */
  lemma AppendStopLine(header: string, stops: seq<GradientStop>, i: nat)
    requires i < |stops|
    ensures header + StopLines(stops[..i + 1]) == header + StopLines(stops[..i]) + StopLine(stops[i])
  {
    assert stops[..i + 1] == stops[..i] + [stops[i]];
    StopLinesSnoc(stops[..i], stops[i]);
    Assoc3(header, StopLines(stops[..i]), StopLine(stops[i]));
  }

  /** `generateGradientBrush`, as one expression. */
  function GradientBrush(name: string, stops: seq<GradientStop>): string {
    GradientOpen + Sanitize(name) + GradientKeySuffix + GradientHeaderEnd
      + StopLines(stops) + GradientClose
  }

  /**
   * `generateGradientBrush` as the source writes it: the header, then one
   * `+=` per stop in `forEach` order, then the closing tag.
   */
  method GenerateGradientBrush(name: string, stops: seq<GradientStop>) returns (result: string)
    ensures result == GradientBrush(name, stops)
  {
    var key := Sanitize(name);
    var header := GradientOpen + key + GradientKeySuffix + GradientHeaderEnd;
    result := header;
    assert stops[..0] == [] && header + [] == header;
    for i := 0 to |stops|
      invariant result == header + StopLines(stops[..i])
    {
      AppendStopLine(header, stops, i);
      result := result + StopLine(stops[i]);
    }
    assert stops[..|stops|] == stops;
    result := result + GradientClose;
  }

  /** What a gradient brush element says: its key attribute and its stops. */
  datatype GradientMarkup = GradientMarkup(key: string, stops: seq<GradientStop>)

  function ParseStops(s: string): Option<seq<GradientStop>>
    decreases |s|
  {
    if s == GradientClose then Some([])
    else
      var afterOpen :- StripPrefix(StopOpen, s);
      var color :- ParseArgb(afterOpen);
      var afterAttr :- StripPrefix(StopOffsetAttr, color.1);
      var position :- UntilQuote(afterAttr);
      var rest :- StripPrefix(StopClose, position.1);
      var tail :- ParseStops(rest);
      var c := color.0;
      Some([GradientStop(Rgba(c.r, c.g, c.b, c.a), position.0)] + tail)
  }

  function ParseGradientBrush(s: string): Option<GradientMarkup> {
    var afterOpen :- StripPrefix(GradientOpen, s);
    var key :- UntilQuote(afterOpen);
    var body :- StripPrefix(GradientHeaderEnd, key.1);
    var stops :- ParseStops(body);
    Some(GradientMarkup(key.0, stops))
  }

  /** JavaScript's text for a number never holds a double quote. */
  predicate QuoteFreePositions(stops: seq<GradientStop>) {
    forall i :: 0 <= i < |stops| ==> '"' !in stops[i].position
  }

  /** One stop line is read back as that stop, then the rest is read on. */
  lemma ParseStopsStep(stop: GradientStop, text: string, rest: string, tail: seq<GradientStop>)
    requires '"' !in stop.position && text == StopLine(stop) + rest
    requires ParseStops(rest) == Some(tail)
    ensures ParseStops(text) == Some([stop] + tail)
  {
    var c := Argb(stop.color.a, stop.color.r, stop.color.g, stop.color.b);
    var afterPos := StopClose + rest;
    var afterAttr := stop.position + afterPos;
    var afterColor := StopOffsetAttr + afterAttr;
    var afterOpen := ArgbHex(c) + afterColor;
    var s := text;
    Assoc6(StopOpen, ArgbHex(c), StopOffsetAttr, stop.position, StopClose, rest);
    assert s == StopOpen + afterOpen;
    assert s[0] == ' ' && GradientClose[0] == '<';
    StripPrefixOf(StopOpen, afterOpen);
    ArgbRoundTrip(c, afterColor);
    StripPrefixOf(StopOffsetAttr, afterAttr);
    UntilQuoteOf(stop.position, afterPos);
    StripPrefixOf(StopClose, rest);
  }

  lemma ParseStopsEmpty()
    ensures ParseStops(StopLines([]) + GradientClose) == Some([])
  {
    assert StopLines([]) + GradientClose == GradientClose;
  }

  lemma StopLinesCons(stops: seq<GradientStop>, text: string, restText: string)
    requires |stops| > 0
    requires text == StopLines(stops) + GradientClose
    requires restText == StopLines(stops[1..]) + GradientClose
    ensures text == StopLine(stops[0]) + restText
  {
    Assoc3(StopLine(stops[0]), StopLines(stops[1..]), GradientClose);
  }

  /** Prepending a stop's line prepends the stop to what is read back. */
  lemma ParseStopsCons(stops: seq<GradientStop>, text: string, restText: string)
    requires |stops| > 0 && '"' !in stops[0].position
    requires text == StopLines(stops) + GradientClose
    requires restText == StopLines(stops[1..]) + GradientClose
    requires ParseStops(restText) == Some(stops[1..])
    ensures ParseStops(text) == Some(stops)
  {
    assert text == StopLine(stops[0]) + restText by {
      StopLinesCons(stops, text, restText);
    }
    assert [stops[0]] + stops[1..] == stops;
    ParseStopsStep(stops[0], text, restText, stops[1..]);
  }



  /** The stop lines followed by the closing tag are read back as exactly the stops, in order. */
  lemma {:induction false} ParseStopsRoundTrip(stops: seq<GradientStop>)
    requires QuoteFreePositions(stops)
    ensures ParseStops(StopLines(stops) + GradientClose) == Some(stops)
    decreases |stops|
  {
    if |stops| == 0 {
      ParseStopsEmpty();
    } else {
      ParseStopsRoundTrip(stops[1..]);
      ParseStopsCons(stops, StopLines(stops) + GradientClose, StopLines(stops[1..]) + GradientClose);
    }
  }



  /**
   * Reading a gradient brush back gives the sanitised name followed by the
   * literal `r` as key, and every stop, colour and position, in input order.
   */
  lemma GradientBrushRoundTrip(name: string, stops: seq<GradientStop>)
    requires QuoteFreePositions(stops)
    ensures ParseGradientBrush(GradientBrush(name, stops))
         == Some(GradientMarkup(Sanitize(name) + GradientKeySuffix, stops))
  {
    var key := Sanitize(name) + GradientKeySuffix;
    var body := StopLines(stops) + GradientClose;
    var afterKey := GradientHeaderEnd + body;
    var afterOpen := key + afterKey;
    Assoc6(GradientOpen, Sanitize(name), GradientKeySuffix, GradientHeaderEnd, StopLines(stops), GradientClose);
    Assoc3(Sanitize(name), GradientKeySuffix, afterKey);
    StripPrefixOf(GradientOpen, afterOpen);
    CleanHasNoQuote(Sanitize(name));
    UntilQuoteOf(key, afterKey);
    StripPrefixOf(GradientHeaderEnd, body);
    ParseStopsRoundTrip(stops);
  }

  /** With no stops, the header is followed directly by the closing tag. */
  lemma GradientBrushNoStops(name: string)
    ensures ParseGradientBrush(GradientBrush(name, [])) == Some(GradientMarkup(Sanitize(name) + GradientKeySuffix, []))
    ensures GradientBrush(name, [])
         == GradientOpen + Sanitize(name) + GradientKeySuffix + GradientHeaderEnd + GradientClose
  {
    GradientBrushRoundTrip(name, []);
    assert StopLines([]) == [];
    var header := GradientOpen + Sanitize(name) + GradientKeySuffix + GradientHeaderEnd;
    assert header + [] == header;
  }
}
