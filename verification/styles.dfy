/**
 * The `generate-styles` handler's walk over the local paint styles
 * (XamlStyles/code.ts:24-34 in Figma, 65-75 in other editors), as a pure
 * function of the style sequence the host would return.
 */
module Styles {
  import opened Paints
  import opened Brushes
  import opened Sanitizer
  import Casing

  /** Only `SOLID` and `GRADIENT_LINEAR` paints produce a brush. */
  predicate Emits(p: Paint) {
    p.Solid? || p.GradientLinear?
  }

  /**
   * The name handed to a formatter. In Figma a style with more than one
   * paint (of any type) appends "/" and the camelized blend mode; other
   * editors always use the bare style name.
   */
  function KeyInput(name: string, multi: bool, p: Paint, editor: Editor): string {
    if editor == Figma && multi then name + "/" + Casing.Camelize(p.blendMode) else name
  }

  /** The `if`/`else if` dispatch on `paint.type`. */
  function Brush(key: string, p: Paint): string
    requires Emits(p)
  {
    match p
    case Solid(color, opacity, _) => SolidBrush(key, color, opacity)
    case GradientLinear(stops, _) => GradientBrush(key, stops)
  }

  /** `paintStyle.paints.forEach(...)`: one brush per emitting paint, in order. */
  function PaintBrushes(name: string, multi: bool, paints: seq<Paint>, editor: Editor): seq<string> {
    if |paints| == 0 then []
    else
      var p := paints[0];
      (if Emits(p) then [Brush(KeyInput(name, multi, p, editor), p)] else [])
        + PaintBrushes(name, multi, paints[1..], editor)
  }

  function StyleBrushes(style: PaintStyle, editor: Editor): seq<string> {
    PaintBrushes(style.name, |style.paints| > 1, style.paints, editor)
  }

  /** `getLocalPaintStyles().forEach(...)`, collecting into `data.colors`. */
  function GenerateStyles(styles: seq<PaintStyle>, editor: Editor): seq<string> {
    if |styles| == 0 then [] else StyleBrushes(styles[0], editor) + GenerateStyles(styles[1..], editor)
  }

  // ------------------------------------------------------------ reference

  /** An emitting paint together with what its key depends on. */
  datatype Entry = Entry(name: string, multi: bool, paint: Paint)

  function PaintEntries(name: string, multi: bool, paints: seq<Paint>): seq<Entry> {
    if |paints| == 0 then []
    else (if Emits(paints[0]) then [Entry(name, multi, paints[0])] else []) + PaintEntries(name, multi, paints[1..])
  }

  /** Every emitting paint of every style, style by style and paint by paint. */
  function Entries(styles: seq<PaintStyle>): seq<Entry> {
    if |styles| == 0 then []
    else PaintEntries(styles[0].name, |styles[0].paints| > 1, styles[0].paints) + Entries(styles[1..])
  }

  /** Paints of type `SOLID` or `GRADIENT_LINEAR`, counted. */
  function CountEmitting(paints: seq<Paint>): nat {
    if |paints| == 0 then 0 else (if Emits(paints[0]) then 1 else 0) + CountEmitting(paints[1..])
  }

  function TotalEmitting(styles: seq<PaintStyle>): nat {
    if |styles| == 0 then 0 else CountEmitting(styles[0].paints) + TotalEmitting(styles[1..])
  }

  function EntryBrush(e: Entry, editor: Editor): string
    requires Emits(e.paint)
  {
    Brush(KeyInput(e.name, e.multi, e.paint, editor), e.paint)
  }

  predicate AllEmit(es: seq<Entry>) {
    forall k :: 0 <= k < |es| ==> Emits(es[k].paint)
  }

  /** The brush of every entry, in entry order. */
  function EntryBrushes(es: seq<Entry>, editor: Editor): (r: seq<string>)
    requires AllEmit(es)
    ensures |r| == |es|
  {
    if |es| == 0 then [] else [EntryBrush(es[0], editor)] + EntryBrushes(es[1..], editor)
  }

  // ---------------------------------------------------------------- lemmas

  lemma {:induction false} EntryBrushesIndex(es: seq<Entry>, editor: Editor)
    requires AllEmit(es)
    ensures forall k :: 0 <= k < |es| ==> EntryBrushes(es, editor)[k] == EntryBrush(es[k], editor)
    decreases |es|
  {
    if |es| > 0 {
      EntryBrushesIndex(es[1..], editor);
    }
  }

  lemma {:induction false} EntryBrushesAppend(a: seq<Entry>, b: seq<Entry>, editor: Editor)
    requires AllEmit(a) && AllEmit(b)
    ensures AllEmit(a + b)
    ensures EntryBrushes(a + b, editor) == EntryBrushes(a, editor) + EntryBrushes(b, editor)
    decreases |a|
  {
    if |a| > 0 {
      assert (a + b)[1..] == a[1..] + b;
      EntryBrushesAppend(a[1..], b, editor);
    } else {
      assert a + b == b;
    }
  }

  lemma {:induction false} PaintEntriesShape(name: string, multi: bool, paints: seq<Paint>)
    ensures |PaintEntries(name, multi, paints)| == CountEmitting(paints)
    ensures AllEmit(PaintEntries(name, multi, paints))
    ensures forall k :: 0 <= k < |PaintEntries(name, multi, paints)| ==>
      PaintEntries(name, multi, paints)[k].name == name && PaintEntries(name, multi, paints)[k].multi == multi
    decreases |paints|
  {
    if |paints| > 0 {
      PaintEntriesShape(name, multi, paints[1..]);
    }
  }

  /**
   * Paints are handled one after another in their order: the brushes of
   * concatenated paint lists are the concatenated brushes.
   */
  lemma PaintBrushesAppend(name: string, multi: bool, a: seq<Paint>, b: seq<Paint>, editor: Editor)
    ensures PaintBrushes(name, multi, a + b, editor) == PaintBrushes(name, multi, a, editor) + PaintBrushes(name, multi, b, editor)
  {
    PaintBrushesAsEntries(name, multi, a + b, editor);
    PaintBrushesAsEntries(name, multi, a, editor);
    PaintBrushesAsEntries(name, multi, b, editor);
    PaintEntriesAppend(name, multi, a, b);
    EntryBrushesAppend(PaintEntries(name, multi, a), PaintEntries(name, multi, b), editor);
  }

  /** One paint on its own yields its brush when it emits, and nothing otherwise. */
  lemma PaintBrushesSingle(name: string, multi: bool, p: Paint, editor: Editor)
    ensures Emits(p) ==> PaintBrushes(name, multi, [p], editor) == [Brush(KeyInput(name, multi, p, editor), p)]
    ensures !Emits(p) ==> PaintBrushes(name, multi, [p], editor) == []
  {
    assert [p][1..] == [];
  }

  /**
   * Paints are handled one after another in their order: the brushes of
   * concatenated paint lists are the concatenated brushes.
   */
  /** The entry list keeps paint order: entries of concatenated paints are the concatenated entries. */
  lemma {:induction false} PaintEntriesAppend(name: string, multi: bool, a: seq<Paint>, b: seq<Paint>)
    ensures PaintEntries(name, multi, a + b) == PaintEntries(name, multi, a) + PaintEntries(name, multi, b)
    decreases |a|
  {
    if |a| > 0 {
      assert (a + b)[0] == a[0];
      assert (a + b)[1..] == a[1..] + b;
      PaintEntriesAppend(name, multi, a[1..], b);
    } else {
      assert a + b == b;
    }
  }

  lemma {:induction false} PaintBrushesAsEntries(name: string, multi: bool, paints: seq<Paint>, editor: Editor)
    ensures AllEmit(PaintEntries(name, multi, paints))
    ensures PaintBrushes(name, multi, paints, editor) == EntryBrushes(PaintEntries(name, multi, paints), editor)
    decreases |paints|
  {
    PaintEntriesShape(name, multi, paints);
    if |paints| > 0 {
      var p, rest := paints[0], paints[1..];
      PaintBrushesAsEntries(name, multi, rest, editor);
      PaintEntriesShape(name, multi, rest);
      if Emits(p) {
        EntryBrushesAppend([Entry(name, multi, p)], PaintEntries(name, multi, rest), editor);
      } else {
        assert PaintEntries(name, multi, paints) == PaintEntries(name, multi, rest);
      }
    }
  }

  lemma {:induction false} EntriesAllEmit(styles: seq<PaintStyle>)
    ensures AllEmit(Entries(styles))
    ensures |Entries(styles)| == TotalEmitting(styles)
    decreases |styles|
  {
    if |styles| > 0 {
      PaintEntriesShape(styles[0].name, |styles[0].paints| > 1, styles[0].paints);
      EntriesAllEmit(styles[1..]);
    }
  }

  lemma {:induction false} GenerateStylesAsEntries(styles: seq<PaintStyle>, editor: Editor)
    ensures AllEmit(Entries(styles))
    ensures GenerateStyles(styles, editor) == EntryBrushes(Entries(styles), editor)
    decreases |styles|
  {
    EntriesAllEmit(styles);
    if |styles| > 0 {
      var s := styles[0];
      PaintBrushesAsEntries(s.name, |s.paints| > 1, s.paints, editor);
      GenerateStylesAsEntries(styles[1..], editor);
      EntryBrushesAppend(PaintEntries(s.name, |s.paints| > 1, s.paints), Entries(styles[1..]), editor);
    }
  }

  /**
   * The driver's output is the brush of each emitting paint, in style order
   * and then paint order, and nothing else: one string per `SOLID` or
   * `GRADIENT_LINEAR` paint.
   */
  lemma GenerateStylesByEntries(styles: seq<PaintStyle>, editor: Editor)
    ensures |GenerateStyles(styles, editor)| == |Entries(styles)| == TotalEmitting(styles)
    ensures forall k :: 0 <= k < |Entries(styles)| ==>
      Emits(Entries(styles)[k].paint) && GenerateStyles(styles, editor)[k] == EntryBrush(Entries(styles)[k], editor)
  {
    GenerateStylesAsEntries(styles, editor);
    EntriesAllEmit(styles);
    EntryBrushesIndex(Entries(styles), editor);
  }

  /** An emitting paint of some style is an entry, with that style's name and paint count. */
  lemma {:induction false} PaintEntriesMembership(name: string, multi: bool, paints: seq<Paint>, e: Entry)
    ensures e in PaintEntries(name, multi, paints)
        <==> e.name == name && e.multi == multi && e.paint in paints && Emits(e.paint)
    decreases |paints|
  {
    if |paints| > 0 {
      PaintEntriesMembership(name, multi, paints[1..], e);
      assert paints == [paints[0]] + paints[1..];
    }
  }

  lemma {:induction false} EntriesMembership(styles: seq<PaintStyle>, e: Entry)
    ensures e in Entries(styles) <==>
      exists i :: 0 <= i < |styles| && e.name == styles[i].name
        && e.multi == (|styles[i].paints| > 1) && e.paint in styles[i].paints && Emits(e.paint)
    decreases |styles|
  {
    if |styles| > 0 {
      var s := styles[0];
      PaintEntriesMembership(s.name, |s.paints| > 1, s.paints, e);
      EntriesMembership(styles[1..], e);
      if e in Entries(styles[1..]) {
        var i :| 0 <= i < |styles[1..]| && e.name == styles[1..][i].name
          && e.multi == (|styles[1..][i].paints| > 1) && e.paint in styles[1..][i].paints && Emits(e.paint);
        assert styles[i + 1] == styles[1..][i];
      }
      if exists i :: (0 <= i < |styles| && e.name == styles[i].name
        && e.multi == (|styles[i].paints| > 1) && e.paint in styles[i].paints && Emits(e.paint))
      {
        var i :| 0 <= i < |styles| && e.name == styles[i].name
          && e.multi == (|styles[i].paints| > 1) && e.paint in styles[i].paints && Emits(e.paint);
        if i > 0 {
          assert styles[1..][i - 1] == styles[i];
        }
      }
    }
  }

  /** Styles are handled one after the other: the output of a concatenation is the concatenation. */
  lemma {:induction false} GenerateStylesAppend(a: seq<PaintStyle>, b: seq<PaintStyle>, editor: Editor)
    ensures GenerateStyles(a + b, editor) == GenerateStyles(a, editor) + GenerateStyles(b, editor)
    decreases |a|
  {
    if |a| > 0 {
      assert (a + b)[1..] == a[1..] + b;
      GenerateStylesAppend(a[1..], b, editor);
    } else {
      assert a + b == b;
    }
  }

  /**
   * The sanitised key: in Figma, a multi-paint style's key is the sanitised
   * name followed by the sanitised camelized blend mode (the "/" is stripped);
   * otherwise it is the sanitised name alone.
   */
  lemma KeyOfPaint(name: string, multi: bool, p: Paint, editor: Editor)
    ensures editor == Figma && multi ==>
      Sanitize(KeyInput(name, multi, p, editor)) == Sanitize(name) + Sanitize(Casing.Camelize(p.blendMode))
    ensures !(editor == Figma && multi) ==>
      Sanitize(KeyInput(name, multi, p, editor)) == Sanitize(name)
  {
    if editor == Figma && multi {
      var camel := Casing.Camelize(p.blendMode);
      SanitizeAppend(name + "/", camel);
      SanitizeAppend(name, "/");
      SanitizeChar('/');
      assert Sanitize(name + "/") == Sanitize(name) + [];
    }
  }

  /** In Figma, two paints of one multi-paint style get different keys when their blend modes differ after camelizing and sanitising. */
  lemma MultiPaintKeysDiffer(name: string, p: Paint, q: Paint)
    requires Sanitize(Casing.Camelize(p.blendMode)) != Sanitize(Casing.Camelize(q.blendMode))
    ensures Sanitize(KeyInput(name, true, p, Figma)) != Sanitize(KeyInput(name, true, q, Figma))
  {
    KeyOfPaint(name, true, p, Figma);
    KeyOfPaint(name, true, q, Figma);
    var a, b := Sanitize(Casing.Camelize(p.blendMode)), Sanitize(Casing.Camelize(q.blendMode));
    assert (Sanitize(name) + a)[|Sanitize(name)|..] == a;
    assert (Sanitize(name) + b)[|Sanitize(name)|..] == b;
  }
}
