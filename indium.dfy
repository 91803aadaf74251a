/**
 * The property-string classifiers of `Indium`: a tri-state, a boolean with a
 * default, and an enum constant looked up by name. A property that is absent
 * (`null`) is `None`. Case folding is ASCII only.
 */
module Indium {
  import opened Wrappers

  /** Fabric's `TriState`. */
  datatype TriState = True | False | Default

  /** ASCII lower case of one character. */
  function LowerChar(c: char): char
  {
    if 'A' <= c <= 'Z' then (c as int + ('a' as int - 'A' as int)) as char else c
  }

  /** `String.toLowerCase(Locale.ROOT)` on ASCII text. */
  function ToLowerCase(s: string): (r: string)
    ensures |r| == |s|
    ensures forall i :: 0 <= i < |s| ==> r[i] == LowerChar(s[i])
  {
    if s == [] then [] else [LowerChar(s[0])] + ToLowerCase(s[1..])
  }

  /** `String.equalsIgnoreCase` on ASCII text: same length, same characters once folded. */
  function EqualsIgnoreCase(a: string, b: string): (r: bool)
    ensures r <==> ToLowerCase(a) == ToLowerCase(b)
  {
    var same := |a| == |b| && forall i :: 0 <= i < |a| ==> LowerChar(a[i]) == LowerChar(b[i]);
    assert same ==> ToLowerCase(a) == ToLowerCase(b) by {
      if same {
        assert forall i :: 0 <= i < |a| ==> ToLowerCase(a)[i] == ToLowerCase(b)[i];
      }
    }
    same
  }

  /** Comparing the lower-cased string with a lower-case literal is comparing ignoring case. */
  lemma LowerCaseMatches(s: string, t: string)
    requires forall i :: 0 <= i < |t| ==> LowerChar(t[i]) == t[i]
    ensures ToLowerCase(s) == t <==> EqualsIgnoreCase(s, t)
  {
    if EqualsIgnoreCase(s, t) {
      assert forall i :: 0 <= i < |s| ==> ToLowerCase(s)[i] == t[i];
    }
  }

  /** `asTriState`: "true" and "false" in any case, and `Default` for everything else, absent and empty included. */
  function AsTriState(property: Option<string>): (t: TriState)
    ensures t == True <==> property.Some? && EqualsIgnoreCase(property.value, "true")
    ensures t == False <==> property.Some? && EqualsIgnoreCase(property.value, "false")
  {
    match property
    case None => Default
    case Some(s) =>
      if s == "" then Default
      else
        LowerCaseMatches(s, "true");
        LowerCaseMatches(s, "false");
        var lower := ToLowerCase(s);
        if lower == "true" then True
        else if lower == "false" then False
        else Default
  }

  /** "auto", the value written for every property left unset, is neither. */
  lemma AutoIsDefault()
    ensures AsTriState(Some("auto")) == Default
  {
    assert !EqualsIgnoreCase("auto", "true") by { assert LowerChar("auto"[0]) != LowerChar("true"[0]); }
    assert !EqualsIgnoreCase("auto", "false");
  }

  /** `asBoolean`: true for "true", false for "false" (any case), the default otherwise. */
  function AsBoolean(property: Option<string>, defValue: bool): (b: bool)
    ensures b <==> (property.Some? && EqualsIgnoreCase(property.value, "true")) ||
                   (defValue && !(property.Some? && EqualsIgnoreCase(property.value, "false")))
  {
    match AsTriState(property)
    case True => true
    case False => false
    case Default => defValue
  }

  /** Every configuration flag left at "auto" takes its default. */
  lemma AutoBooleanIsDefault(defValue: bool)
    ensures AsBoolean(Some("auto"), defValue) == defValue
  {
    AutoIsDefault();
  }

  /** The position of the first constant, in declaration order, whose name equals `s` ignoring case. */
  function FirstNamed<T>(s: string, constants: seq<T>, name: T -> string): (r: Option<nat>)
    ensures r.Some? ==> r.value < |constants| && EqualsIgnoreCase(s, name(constants[r.value]))
    ensures r.Some? ==> forall j :: 0 <= j < r.value ==> !EqualsIgnoreCase(s, name(constants[j]))
    ensures r.None? ==> forall j :: 0 <= j < |constants| ==> !EqualsIgnoreCase(s, name(constants[j]))
  {
    if constants == [] then None
    else if EqualsIgnoreCase(s, name(constants[0])) then Some(0)
    else
      match FirstNamed(s, constants[1..], name)
      case None => None
      case Some(i) => Some(i + 1)
  }

  /**
   * `asEnum`: the first of the enum's `constants` (in declaration order) whose
   * name equals the property ignoring case; the default when the property is
   * absent or empty or names none of them.
   */
  function AsEnum<T>(property: Option<string>, defValue: T, constants: seq<T>, name: T -> string): (r: T)
    ensures r == defValue || r in constants
    ensures (property.None? || property.value == "") ==> r == defValue
    ensures property.Some? && property.value != "" ==>
              if exists i :: 0 <= i < |constants| && EqualsIgnoreCase(property.value, name(constants[i]))
              then exists i :: 0 <= i < |constants| && r == constants[i] &&
                     EqualsIgnoreCase(property.value, name(constants[i])) &&
                     forall j :: 0 <= j < i ==> !EqualsIgnoreCase(property.value, name(constants[j]))
              else r == defValue
  {
    match property
    case None => defValue
    case Some(s) =>
      if s == "" then defValue
      else
        match FirstNamed(s, constants, name)
        case None => defValue
        case Some(i) => constants[i]
  }
}
