/** Property names: the camelCase to kebab-case conversion and the table of
    properties that never take a pixel unit. */
module Names {

  predicate IsLower(c: char) { 'a' <= c <= 'z' }

  predicate IsUpper(c: char) { 'A' <= c <= 'Z' }

  function ToLower(c: char): char
  {
    if IsUpper(c) then (c as int + 32) as char else c
  }

  predicate HasNoUpper(s: string)
  {
    forall i :: 0 <= i < |s| ==> !IsUpper(s[i])
  }

  /** ASCII lower-casing, character by character. */
  function Lower(s: string): (r: string)
    ensures |r| == |s|
    ensures forall i :: 0 <= i < |s| ==> r[i] == ToLower(s[i])
    ensures HasNoUpper(r)
  {
    if s == [] then [] else [ToLower(s[0])] + Lower(s[1..])
  }

  /** The global replacement of `/([a-z])([A-Z])/` by `"$1-$2"`: the scan
      resumes after each match, so the upper-case letter of one match is
      never the start of the next. */
  function Hyphenate(s: string): string
  {
    if |s| < 2 then s
    else if IsLower(s[0]) && IsUpper(s[1]) then [s[0], '-', s[1]] + Hyphenate(s[2..])
    else [s[0]] + Hyphenate(s[1..])
  }

  function Dashify(s: string): (r: string)
    ensures HasNoUpper(r)
  {
    Lower(Hyphenate(s))
  }

  /** The number of positions where a lower-case letter is directly followed
      by an upper-case one. */
  function Boundaries(s: string): nat
  {
    if |s| < 2 then 0
    else (if IsLower(s[0]) && IsUpper(s[1]) then 1 else 0) + Boundaries(s[1..])
  }

  /** One hyphen is inserted at every boundary, adjacent boundaries
      ("aBcD") included, and nothing else is added or dropped. */
  lemma {:induction false} DashifyLength(s: string)
    ensures |Dashify(s)| == |s| + Boundaries(s)
  {
    HyphenateLength(s);
  }

  lemma {:induction false} HyphenateLength(s: string)
    ensures |Hyphenate(s)| == |s| + Boundaries(s)
    decreases |s|
  {
    if |s| < 2 {
    } else if IsLower(s[0]) && IsUpper(s[1]) {
      HyphenateLength(s[2..]);
      assert s[1..][1..] == s[2..];
      assert !IsLower(s[1]);
    } else {
      HyphenateLength(s[1..]);
    }
  }

  lemma {:induction false} HyphenateNoUpper(s: string)
    requires HasNoUpper(s)
    ensures Hyphenate(s) == s
    decreases |s|
  {
    if |s| >= 2 {
      assert HasNoUpper(s[1..]);
      HyphenateNoUpper(s[1..]);
      assert [s[0]] + s[1..] == s;
    }
  }

  lemma LowerNoUpper(s: string)
    requires HasNoUpper(s)
    ensures Lower(s) == s
  {
    assert forall i :: 0 <= i < |s| ==> Lower(s)[i] == s[i];
  }

  /** Converting a name that is already in kebab-case changes nothing. */
  lemma DashifyIdempotent(s: string)
    ensures Dashify(Dashify(s)) == Dashify(s)
  {
    var d := Dashify(s);
    HyphenateNoUpper(d);
    LowerNoUpper(d);
  }

  /** The hyphen goes between the two letters of the boundary, and the
      upper-case letter is lowered: `zIndex` becomes `z-index`. */
  lemma DashifyZIndex()
    ensures Dashify("zIndex") == "z-index"
  {
    HyphenateZIndex();
    LowerZIndex();
  }

  lemma HyphenateZIndex()
    ensures Hyphenate("zIndex") == "z-Index"
  {
    var s := "zIndex";
    assert IsLower(s[0]) && IsUpper(s[1]);
    assert s[2..] == "ndex";
    HyphenateNoUpper("ndex");
  }

  lemma LowerZIndex()
    ensures Lower("z-Index") == "z-index"
  {
    var l := Lower("z-Index");
    assert l[0] == 'z' && l[1] == '-' && l[2] == 'i' && l[3] == 'n';
    assert l[4] == 'd' && l[5] == 'e' && l[6] == 'x';
  }

  /** The properties whose bare numbers take no `px` unit, as written in the
      source (camelCase, before conversion). */
  const Unitless: set<string> := {
    "animationIterationCount", "borderImageOutset", "borderImageSlice",
    "borderImageWidth", "boxFlex", "boxFlexGroup", "boxOrdinalGroup",
    "columnCount", "columns", "flex", "flexGrow", "flexPositive", "flexShrink",
    "flexNegative", "flexOrder", "gridRow", "gridRowEnd", "gridRowSpan",
    "gridRowStart", "gridColumn", "gridColumnEnd", "gridColumnSpan",
    "gridColumnStart", "fontWeight", "lineClamp", "lineHeight", "opacity",
    "order", "orphans", "tabSize", "widows", "zIndex", "zoom",
    // SVG properties
    "fillOpacity", "floodOpacity", "stopOpacity", "strokeDasharray",
    "strokeDashoffset", "strokeMiterlimit", "strokeOpacity", "strokeWidth"
  }

  predicate IsUnitless(name: string) { name in Unitless }
}
