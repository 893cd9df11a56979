/**
 * ASCII case mapping and the plugin's `camelize` (XamlStyles/code.ts:150-153).
 * `toLowerCase` and `toUpperCase` are modelled on ASCII letters only; every
 * other character is left as it is.
 */
module Casing {

  predicate IsUpper(c: char) {
    'A' <= c <= 'Z'
  }

  predicate IsLower(c: char) {
    'a' <= c <= 'z'
  }

  function LowerChar(c: char): (r: char)
    ensures !IsUpper(r)
    ensures IsUpper(c) ==> IsLower(r) && r as int == c as int + 32
    ensures !IsUpper(c) ==> r == c
  {
    if IsUpper(c) then (c as int + 32) as char else c
  }

  function UpperChar(c: char): (r: char)
    ensures !IsLower(r)
    ensures IsLower(c) ==> IsUpper(r) && r as int == c as int - 32
    ensures !IsLower(c) ==> r == c
  {
    if IsLower(c) then (c as int - 32) as char else c
  }

  /** Lower-casing forgets the case an upper-casing chose, and vice versa. */
  lemma CharCaseAbsorb(c: char)
    ensures LowerChar(UpperChar(c)) == LowerChar(c)
    ensures UpperChar(LowerChar(c)) == UpperChar(c)
  {
  }

  /** `String.prototype.toLowerCase`, ASCII only. */
  function ToLower(s: string): (r: string)
    ensures |r| == |s|
    ensures forall i :: 0 <= i < |s| ==> r[i] == LowerChar(s[i])
  {
    if |s| == 0 then [] else [LowerChar(s[0])] + ToLower(s[1..])
  }

  /** `String.prototype.toUpperCase`, ASCII only. */
  function ToUpper(s: string): (r: string)
    ensures |r| == |s|
    ensures forall i :: 0 <= i < |s| ==> r[i] == UpperChar(s[i])
  {
    if |s| == 0 then [] else [UpperChar(s[0])] + ToUpper(s[1..])
  }

  /**
   * `camelize`: lower-case the whole text, then upper-case its first character
   * (`substr(0, 1)` and `substr(1)` both give "" on the empty string).
   */
  function Camelize(text: string): (r: string)
    ensures |r| == |text|
    ensures |text| > 0 ==> r[0] == UpperChar(text[0]) && !IsLower(r[0])
    ensures forall i :: 1 <= i < |text| ==> r[i] == LowerChar(text[i]) && !IsUpper(r[i])
  {
    var lower := ToLower(text);
    var head := if |lower| == 0 then 0 else 1;
    ToUpper(lower[..head]) + lower[head..]
  }

  /** Camelizing only depends on the letters, not on their case. */
  lemma CamelizeIgnoresCase(s: string)
    ensures Camelize(ToLower(s)) == Camelize(s)
    ensures Camelize(ToUpper(s)) == Camelize(s)
  {
    forall c: char
      ensures LowerChar(UpperChar(c)) == LowerChar(c) && UpperChar(LowerChar(c)) == UpperChar(c)
    {
      CharCaseAbsorb(c);
    }
  }

  /** A camelized text is its own camelization. */
  lemma CamelizeIdempotent(s: string)
    ensures Camelize(Camelize(s)) == Camelize(s)
  {
    var c := Camelize(s);
    if |s| > 0 {
      CharCaseAbsorb(s[0]);
    }
    forall i | 1 <= i < |s|
      ensures LowerChar(c[i]) == c[i]
    {
    }
  }

  /** The blend-mode names Figma uses become a capitalised, otherwise lower-case word. */
  lemma CamelizeBlendModes()
    ensures Camelize("NORMAL") == "Normal"
    ensures Camelize("HUE") == "Hue"
  {
  }
}
