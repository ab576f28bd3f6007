/** The SVG rules of latexUtils.ts: reading a size out of MathJax's markup
    (`parseSvgDimension`, `getSvgDimensions`) and adding the two XML
    namespace attributes (`ensureSvgNamespaces`). */
module SvgDimensions {
  import opened Strings
  import opened Wrappers

  // ---------------------------------------------------------------------
  // Scanning helpers

  /** First position at or after `from` whose character fails `p`, or `|s|`. */
  function SkipWhile(s: string, from: nat, p: char -> bool): (k: nat)
    requires from <= |s|
    ensures from <= k <= |s| && (k < |s| ==> !p(s[k]))
    ensures forall j :: from <= j < k ==> p(s[j])
    decreases |s| - from
  {
    if from == |s| || !p(s[from]) then from else SkipWhile(s, from + 1, p)
  }

  /** The scan stops at the first position where `p` fails. */
  lemma SkipWhileStops(s: string, from: nat, p: char -> bool, k: nat)
    requires from <= k <= |s| && (k < |s| ==> !p(s[k]))
    requires forall j :: from <= j < k ==> p(s[j])
    ensures SkipWhile(s, from, p) == k
  {
  }

  /** A character of the class `[0-9.]`. */
  predicate IsNumberChar(c: char) {
    IsDigit(c) || c == '.'
  }

  predicate NotNumberChar(c: char) {
    !IsNumberChar(c)
  }

  predicate NotSpace(c: char) {
    !IsSpace(c)
  }

  predicate AllNumberChars(s: string) {
    forall i :: 0 <= i < |s| ==> IsNumberChar(s[i])
  }

  // ---------------------------------------------------------------------
  // `Number` on decimal text

  /** No two dots. */
  predicate AtMostOneDot(s: string) {
    forall i, j :: 0 <= i < j < |s| && s[i] == '.' ==> s[j] != '.'
  }

  predicate HasDigit(s: string) {
    exists i :: 0 <= i < |s| && IsDigit(s[i])
  }

  /** `Number(s)` for a run of `[0-9.]`: the digits before the dot plus the
      fraction after it; `None` (NaN) for two dots, no digit at all, or a
      character outside the class. */
  function DecimalValue(s: string): (r: Option<real>)
    ensures r.Some? ==> r.value >= 0.0 && AllNumberChars(s)
  {
    if !AllNumberChars(s) then None
    else
      var d := Find(s, '.', 0);
      var whole := s[..d];
      var frac := if d < |s| then s[d + 1..] else [];
      assert AllDigits(whole) by {
        forall i | 0 <= i < |whole| ensures IsDigit(whole[i]) {
          assert whole[i] == s[i];
        }
      }
      if !Lacks(frac, '.') then None
      else if whole == [] && frac == [] then None
      else
        assert AllDigits(frac) by {
          forall i | 0 <= i < |frac| ensures IsDigit(frac[i]) {
            assert frac[i] == s[d + 1 + i];
          }
        }
        Some(DigitsValue(whole) as real + DigitsValue(frac) as real / Pow10(|frac|) as real)
  }

  /** `Number` of a `[0-9.]` run is finite exactly when the run has at most
      one dot and at least one digit. */
  lemma DecimalValueFinite(s: string)
    requires AllNumberChars(s)
    ensures DecimalValue(s).Some? <==> AtMostOneDot(s) && HasDigit(s)
  {
    var d := Find(s, '.', 0);
    if d == |s| {
      if s != [] {
        assert IsDigit(s[0]);
      }
    } else {
      var frac := s[d + 1..];
      if !Lacks(frac, '.') {
        var j :| 0 <= j < |frac| && frac[j] == '.';
        assert s[d + 1 + j] == '.';
      } else {
        DecimalOneDot(s, d);
        if d > 0 || d + 1 < |s| {
          DecimalDigitBesideDot(s, d);
        }
      }
    }
  }

  lemma DecimalOneDot(s: string, d: nat)
    requires d < |s| && s[d] == '.' && (forall k :: 0 <= k < d ==> s[k] != '.')
    requires Lacks(s[d + 1..], '.')
    ensures AtMostOneDot(s)
  {
    forall i, j | 0 <= i < j < |s| && s[i] == '.' ensures s[j] != '.' {
      assert i == d;
      assert s[j] == s[d + 1..][j - d - 1];
    }
  }

  lemma DecimalDigitBesideDot(s: string, d: nat)
    requires AllNumberChars(s) && d < |s| && s[d] == '.' && (forall k :: 0 <= k < d ==> s[k] != '.')
    requires Lacks(s[d + 1..], '.') && (d > 0 || d + 1 < |s|)
    ensures HasDigit(s)
  {
    if d > 0 {
      assert IsDigit(s[0]);
    } else {
      assert s[d + 1] == s[d + 1..][0];
      assert IsDigit(s[d + 1]);
    }
  }

  /** The decimal digits of `n` read back as `n`. */
  lemma DecimalOfDigits(n: nat)
    ensures AllNumberChars(NatToDigits(n)) && DecimalValue(NatToDigits(n)) == Some(n as real)
  {
    var s := NatToDigits(n);
    assert Find(s, '.', 0) == |s|;
    assert s[..|s|] == s;
  }

  /** A run with a second dot, such as `1.2.3`, is NaN. */
  lemma TwoDotsIsNaN(a: string, b: string, c: string)
    requires AllNumberChars(a + "." + b + "." + c)
    ensures DecimalValue(a + "." + b + "." + c).None?
  {
    var s := a + "." + b + "." + c;
    assert s[|a|] == '.' && s[|a| + 1 + |b|] == '.';
    assert !AtMostOneDot(s);
    DecimalValueFinite(s);
  }

  /** Value of the exponent digits after `e`: an optional sign, then digits. */
  function ExponentValue(x: string): Option<int> {
    var sign := if x != [] && (x[0] == '+' || x[0] == '-') then 1 else 0;
    var digits := x[sign..];
    if digits == [] || !AllDigits(digits) then None
    else
      var v: int := DigitsValue(digits);
      Some(if sign == 1 && x[0] == '-' then -v else v)
  }

  predicate NotExponentMark(c: char) {
    c != 'e' && c != 'E'
  }

  /** `Number` of unsigned decimal notation with an optional exponent. */
  function UnsignedNumber(t: string): Option<real> {
    var k := SkipWhile(t, 0, NotExponentMark);
    var mantissa := t[..k];
    match DecimalValue(mantissa)
      case None => None
      case Some(m) =>
        if k == |t| then Some(m)
        else match ExponentValue(t[k + 1..])
          case None => None
          case Some(e) => Some(if e >= 0 then m * Pow10(e) as real else m / Pow10(-e) as real)
  }

  /** `Number(t)` when it is finite, for a field without whitespace: the
      empty field is 0, then an optional sign before decimal notation.
      `None` stands for NaN and for the infinities. */
  function JsNumber(t: string): Option<real> {
    if t == [] then Some(0.0)
    else if t[0] == '-' then
      match UnsignedNumber(t[1..])
      case None => None
      case Some(v) => Some(-v)
    else if t[0] == '+' then UnsignedNumber(t[1..])
    else UnsignedNumber(t)
  }

  /** Decimal digits, with or without a leading minus, read back as their value. */
  lemma JsNumberOfDigits(n: nat)
    ensures JsNumber(NatToDigits(n)) == Some(n as real)
    ensures JsNumber("-" + NatToDigits(n)) == Some(-(n as real))
  {
    var s := NatToDigits(n);
    UnsignedOfDigits(n);
    assert ("-" + s)[1..] == s;
    assert s[0] != '-' && s[0] != '+' by {
      assert IsDigit(s[0]);
    }
  }

  lemma UnsignedOfDigits(n: nat)
    ensures UnsignedNumber(NatToDigits(n)) == Some(n as real)
  {
    var s := NatToDigits(n);
    assert forall i :: 0 <= i < |s| ==> NotExponentMark(s[i]) by {
      assert AllDigits(s);
    }
    assert SkipWhile(s, 0, NotExponentMark) == |s|;
    assert s[..|s|] == s;
    DecimalOfDigits(n);
  }

  // ---------------------------------------------------------------------
  // `parseSvgDimension`

  /** The optional unit group of `([0-9.]+)\s*(px|ex|em)?`. */
  datatype SvgUnit = NoUnit | Px | Ex | Em

  /** The unit at position `k`, if one of the three is there. */
  function UnitAt(s: string, k: nat): SvgUnit {
    if k + 2 <= |s| && s[k..k + 2] == "px" then Px
    else if k + 2 <= |s| && s[k..k + 2] == "ex" then Ex
    else if k + 2 <= |s| && s[k..k + 2] == "em" then Em
    else NoUnit
  }

  function UnitText(u: SvgUnit): string {
    match u
    case NoUnit => ""
    case Px => "px"
    case Ex => "ex"
    case Em => "em"
  }

  /** A length in pixels: no unit and `px` keep the number, `ex` is 8
      pixels and `em` 16. */
  function InPixels(v: real, u: SvgUnit): (r: real)
    ensures v >= 0.0 ==> r >= 0.0
    ensures u == NoUnit || u == Px ==> r == v
  {
    match u
    case NoUnit => v
    case Px => v
    case Ex => v * 8.0
    case Em => v * 16.0
  }

  /** `parseSvgDimension`: null for a missing or empty value and for no match;
      otherwise the first `[0-9.]` run as a number, scaled by the unit that
      follows it after optional whitespace; null when that number is NaN. */
  function ParseSvgDimension(raw: Option<string>): (r: Option<real>)
    ensures r.Some? ==> r.value >= 0.0
    ensures raw.None? || raw == Some([]) ==> r.None?
  {
    if raw.None? || raw.value == [] then None
    else
      var s := raw.value;
      var b := SkipWhile(s, 0, NotNumberChar);
      if b == |s| then None
      else
        var e := SkipWhile(s, b, IsNumberChar);
        match DecimalValue(s[b..e])
        case None => None
        case Some(v) => Some(InPixels(v, UnitAt(s, SkipWhile(s, e, IsSpace))))
  }

  /** A value parses to a number only when it has a digit. */
  lemma ParseNeedsDigit(raw: string)
    requires ParseSvgDimension(Some(raw)).Some?
    ensures exists i :: 0 <= i < |raw| && IsDigit(raw[i])
  {
    var b := SkipWhile(raw, 0, NotNumberChar);
    assert b < |raw|;
    var e := SkipWhile(raw, b, IsNumberChar);
    assert DecimalValue(raw[b..e]).Some?;
    DecimalValueFinite(raw[b..e]);
    SliceDigit(raw, b, e);
  }

  /** A digit of a slice is a digit of the whole. */
  lemma SliceDigit(s: string, b: nat, e: nat)
    requires b <= e <= |s| && HasDigit(s[b..e])
    ensures exists i :: 0 <= i < |s| && IsDigit(s[i])
  {
    var run := s[b..e];
    var i :| 0 <= i < |run| && IsDigit(run[i]);
    assert s[b + i] == run[i];
  }

  /** `String(n)` followed by a unit parses back to `n` in pixels. */
  lemma ParseDigitsWithUnit(n: nat, u: SvgUnit)
    ensures ParseSvgDimension(Some(NatToDigits(n) + UnitText(u))) == Some(InPixels(n as real, u))
  {
    var d := NatToDigits(n);
    var s := d + UnitText(u);
    DigitsRun(d, UnitText(u));
    assert s[0..|d|] == d;
    UnitAfter(d, u);
    DecimalOfDigits(n);
    var v := DecimalValue(s[0..|d|]);
    assert v == Some(n as real);
    assert ParseSvgDimension(Some(s)) == Some(InPixels(v.value, UnitAt(s, |d|)));
  }

  /** The run of `[0-9.]` in a digit string followed by letters is the digit string. */
  lemma DigitsRun(d: string, t: string)
    requires d != [] && AllDigits(d) && (t != [] ==> 'a' <= t[0] <= 'z')
    ensures var s := d + t;
      SkipWhile(s, 0, NotNumberChar) == 0 && SkipWhile(s, 0, IsNumberChar) == |d|
      && SkipWhile(s, |d|, IsSpace) == |d|
  {
    var s := d + t;
    assert s[0] == d[0];
    forall j | 0 <= j < |d| ensures IsNumberChar(s[j]) {
      assert s[j] == d[j];
    }
    if t != [] {
      assert s[|d|] == t[0];
    }
  }

  lemma UnitAfter(d: string, u: SvgUnit)
    ensures UnitAt(d + UnitText(u), |d|) == u
  {
    assert (d + UnitText(u))[|d|..] == UnitText(u);
    assert |d| + 2 <= |d + UnitText(u)| ==> (d + UnitText(u))[|d|..|d| + 2] == UnitText(u);
  }

  /** `2.5ex`, MathJax's usual form, is 20 pixels. */
  lemma ParseExUnits()
    ensures ParseSvgDimension(Some("2.5ex")) == Some(20.0)
  {
    var s := "2.5ex";
    SkipWhileStops(s, 0, NotNumberChar, 0);
    SkipWhileStops(s, 0, IsNumberChar, 3);
    SkipWhileStops(s, 3, IsSpace, 3);
    assert s[0..3] == "2.5";
    DecimalTwoPointFive();
    assert s[3..5] == "ex";
  }

  lemma DecimalTwoPointFive()
    ensures DecimalValue("2.5") == Some(2.5)
  {
    var run := "2.5";
    assert Find(run, '.', 0) == 1;
    assert run[..1] == "2" && run[2..] == "5";
    assert DigitsValue("2") == 2 && DigitsValue("5") == 5 by {
      assert "2"[..0] == [] && "5"[..0] == [];
    }
  }

  // ---------------------------------------------------------------------
  // Attribute values

  /** The capture of `/<name>="([^"]+)"/` when a match starts at `p`:
      `opener` is `name="`, the value runs to the next quote and is non-empty. */
  function AttrAt(s: string, p: nat, opener: string): (r: Option<string>)
    ensures r.Some? ==> r.value != [] && Lacks(r.value, '"')
  {
    if OccursAt(s, p, opener) then
      var v := p + |opener|;
      var q := Find(s, '"', v);
      if v < q < |s| then
        assert forall i :: 0 <= i < q - v ==> s[v..q][i] == s[v + i];
        Some(s[v..q])
      else None
    else None
  }

  /** The leftmost position at or after `from` where a match starts, or `|s|`. */
  function AttrPos(s: string, opener: string, from: nat): (p: nat)
    requires from <= |s|
    ensures from <= p <= |s| && (p < |s| ==> AttrAt(s, p, opener).Some?)
    decreases |s| - from
  {
    if from == |s| || AttrAt(s, from, opener).Some? then from else AttrPos(s, opener, from + 1)
  }

  /** `markup.match(/<name>="([^"]+)"/)?.[1]`. */
  function Attribute(s: string, name: string): (r: Option<string>)
    ensures r.Some? ==> r.value != [] && Lacks(r.value, '"')
  {
    var p := AttrPos(s, name + "=\"", 0);
    if p < |s| then AttrAt(s, p, name + "=\"") else None
  }

  /** No match starts before the position found. */
  lemma {:induction false} AttrPosLeftmost(s: string, opener: string, from: nat)
    requires from <= |s|
    ensures forall j :: from <= j < AttrPos(s, opener, from) ==> AttrAt(s, j, opener).None?
    decreases |s| - from
  {
    if from < |s| && AttrAt(s, from, opener).None? {
      AttrPosLeftmost(s, opener, from + 1);
    }
  }

  /** A match at `p` with none before it is the one found. */
  lemma {:induction false} AttrPosAt(s: string, opener: string, from: nat, p: nat)
    requires from <= p < |s| && AttrAt(s, p, opener).Some?
    requires forall j :: from <= j < p ==> AttrAt(s, j, opener).None?
    ensures AttrPos(s, opener, from) == p
    decreases p - from
  {
    if from < p {
      AttrPosAt(s, opener, from + 1, p);
    }
  }

  /** An opener followed by a quote-free value and a closing quote yields that value. */
  lemma ValueAt(s: string, p: nat, opener: string, v: string)
    requires v != [] && Lacks(v, '"')
    requires OccursAt(s, p, opener) && OccursAt(s, p + |opener|, v)
    requires p + |opener| + |v| < |s| && s[p + |opener| + |v|] == '"'
    ensures AttrAt(s, p, opener) == Some(v)
  {
    var k := p + |opener|;
    forall m | k <= m < k + |v| ensures s[m] != '"' {
      assert s[m] == s[k..k + |v|][m - k] == v[m - k];
    }
    assert Find(s, '"', k) == k + |v|;
  }

  /** No match starts where the opener's first character is missing. */
  lemma NoMatchAt(s: string, j: nat, opener: string)
    requires j < |s| && opener != [] && s[j] != opener[0]
    ensures AttrAt(s, j, opener).None?
  {
    assert !OccursAt(s, j, opener) by {
      if j + |opener| <= |s| {
        assert s[j..j + |opener|][0] == s[j];
      }
    }
  }

  /** The first match decides the attribute's value. */
  lemma AttributeAt(s: string, name: string, p: nat, v: string)
    requires p < |s| && AttrAt(s, p, name + "=\"") == Some(v)
    requires forall j :: 0 <= j < p ==> AttrAt(s, j, name + "=\"").None?
    ensures Attribute(s, name) == Some(v)
  {
    AttrPosAt(s, name + "=\"", 0, p);
  }

  /** `width="` also matches inside `stroke-width="`: the pattern is not
      anchored to an attribute boundary. */
  lemma StrokeWidthMatches(v: string)
    requires v != [] && Lacks(v, '"')
    ensures Attribute("stroke-width=\"" + v + "\"", "width") == Some(v)
  {
    var opener := "width" + "=\"";
    var pre := "stroke-width=\"";
    var s := pre + v + "\"";
    assert pre == "stroke-" + opener;
    OccursInRight("stroke-", opener, 0, opener);
    OccursInLeft(pre, v, 7, opener);
    OccursInLeft(pre + v, "\"", 7, opener);
    OccursInRight(pre, v, 0, v);
    OccursInLeft(pre + v, "\"", 14, v);
    ValueAt(s, 7, opener, v);
    assert opener[0] == 'w';
    forall j | 0 <= j < 7 ensures AttrAt(s, j, opener).None? {
      assert s[j] == pre[j] == "stroke-"[j];
      NoMatchAt(s, j, opener);
    }
    AttributeAt(s, "width", 7, v);
  }

  // ---------------------------------------------------------------------
  // The viewBox

  /** `s.split(/\s+/)`: the fields between whitespace runs. Leading or
      trailing whitespace gives an empty first or last field. */
  function SplitSpaces(s: string): (r: seq<string>)
    ensures r != []
    decreases |s|
  {
    var k := SkipWhile(s, 0, NotSpace);
    if k == |s| then [s]
    else
      var j := SkipWhile(s, k, IsSpace);
      [s[..k]] + SplitSpaces(s[j..])
  }

  /** Fields joined by single spaces. */
  function JoinSpaced(fields: seq<string>): string
    decreases |fields|
  {
    if fields == [] then []
    else if |fields| == 1 then fields[0]
    else fields[0] + " " + JoinSpaced(fields[1..])
  }

  predicate SpaceFree(t: string) {
    forall i :: 0 <= i < |t| ==> !IsSpace(t[i])
  }

  /** Splitting single-spaced non-empty fields gives the fields back. */
  lemma {:induction false} SplitJoined(fields: seq<string>)
    requires fields != []
    requires forall i :: 0 <= i < |fields| ==> fields[i] != [] && SpaceFree(fields[i])
    ensures SplitSpaces(JoinSpaced(fields)) == fields
    decreases |fields|
  {
    var a := fields[0];
    if |fields| == 1 {
      assert forall i :: 0 <= i < |a| ==> NotSpace(a[i]);
      assert SkipWhile(a, 0, NotSpace) == |a|;
    } else {
      var rest := fields[1..];
      var t := JoinSpaced(rest);
      var s := a + " " + t;
      assert forall i :: 0 <= i < |rest| ==> rest[i] == fields[i + 1];
      SplitJoined(rest);
      JoinedHead(rest);
      SplitAfterField(a, t);
      assert fields == [a] + rest;
    }
  }

  lemma JoinedHead(fields: seq<string>)
    requires fields != [] && fields[0] != [] && SpaceFree(fields[0])
    ensures JoinSpaced(fields) != [] && !IsSpace(JoinSpaced(fields)[0])
  {
    if |fields| > 1 {
      assert JoinSpaced(fields)[0] == fields[0][0];
    }
  }

  /** A space-free field, one space, then text that starts with a non-space. */
  lemma SplitAfterField(a: string, t: string)
    requires SpaceFree(a) && t != [] && !IsSpace(t[0])
    ensures SplitSpaces(a + " " + t) == [a] + SplitSpaces(t)
  {
    var s := a + " " + t;
    forall i | 0 <= i < |a| ensures NotSpace(s[i]) {
      assert s[i] == a[i];
    }
    assert s[|a|] == ' ';
    SkipWhileStops(s, 0, NotSpace, |a|);
    assert s[|a| + 1] == t[0];
    assert SkipWhile(s, |a|, IsSpace) == |a| + 1;
    assert s[..|a|] == a && s[|a| + 1..] == t;
  }

  /** Leading whitespace gives an empty first field, so a padded viewBox has five parts. */
  lemma SplitLeadingSpace(t: string)
    requires t != [] && !IsSpace(t[0])
    ensures SplitSpaces(" " + t) == [""] + SplitSpaces(t)
  {
    var s := " " + t;
    assert SkipWhile(s, 0, NotSpace) == 0;
    assert s[1] == t[0];
    assert SkipWhile(s, 0, IsSpace) == 1;
    assert s[1..] == t;
  }

  /** A width and a height, both positive in every result that is returned. */
  datatype Size = Size(width: real, height: real)

  /** The viewBox size: four fields that are all finite numbers, the last two positive. */
  function ViewBoxSize(svg: string): (r: Option<Size>)
    ensures r.Some? ==> r.value.width > 0.0 && r.value.height > 0.0
  {
    match Attribute(svg, "viewBox")
    case None => None
    case Some(v) =>
      var parts := SplitSpaces(v);
      if |parts| == 4 && forall i :: 0 <= i < 4 ==> JsNumber(parts[i]).Some? then
        var width := JsNumber(parts[2]).value;
        var height := JsNumber(parts[3]).value;
        if width > 0.0 && height > 0.0 then Some(Size(width, height)) else None
      else None
  }

  /** The attribute size: both parsed and non-zero. */
  function AttributeSize(svg: string): (r: Option<Size>)
    ensures r.Some? ==> r.value.width > 0.0 && r.value.height > 0.0
  {
    var w := ParseSvgDimension(Attribute(svg, "width"));
    var h := ParseSvgDimension(Attribute(svg, "height"));
    if w.Some? && w.value != 0.0 && h.Some? && h.value != 0.0 then Some(Size(w.value, h.value))
    else None
  }

  // ---------------------------------------------------------------------
  // `getSvgDimensions`

  /** The `Image` decode of the data URL: absent when there is no `Image`
      constructor, loaded with its natural size, or failed (the promise rejects). */
  datatype ImageProbe = NoImage | Loaded(naturalWidth: nat, naturalHeight: nat) | LoadFailed

  const DefaultSize := Size(120.0, 40.0)

  /** `getSvgDimensions`: attributes, then viewBox, then the decoded image,
      then 120 by 40. `None` is the rejected promise of a failed decode. */
  function GetSvgDimensions(svg: string, probe: ImageProbe): (r: Option<Size>)
    ensures r.Some? ==> r.value.width > 0.0 && r.value.height > 0.0
    ensures r.None? <==> AttributeSize(svg).None? && ViewBoxSize(svg).None? && probe == LoadFailed
  {
    if AttributeSize(svg).Some? then AttributeSize(svg)
    else if ViewBoxSize(svg).Some? then ViewBoxSize(svg)
    else match probe
      case NoImage => Some(DefaultSize)
      case LoadFailed => None
      case Loaded(w, h) =>
        if w != 0 && h != 0 then Some(Size(w as real, h as real)) else Some(DefaultSize)
  }

  /** The image is decoded only when neither the attributes nor the viewBox
      give a size: otherwise the result does not depend on it. */
  lemma ProbeOnlyAsFallback(svg: string, p1: ImageProbe, p2: ImageProbe)
    requires AttributeSize(svg).Some? || ViewBoxSize(svg).Some?
    ensures GetSvgDimensions(svg, p1) == GetSvgDimensions(svg, p2)
    ensures GetSvgDimensions(svg, p1) == AttributeSize(svg) || GetSvgDimensions(svg, p1) == ViewBoxSize(svg)
  {
  }

  /** Attribute sizes take precedence over the viewBox. */
  lemma AttributesFirst(svg: string, probe: ImageProbe)
    requires AttributeSize(svg).Some?
    ensures GetSvgDimensions(svg, probe) == AttributeSize(svg)
  {
  }

  /** Without any usable size and without an image decoder the default is 120 by 40. */
  lemma DefaultWithoutImage(svg: string)
    requires AttributeSize(svg).None? && ViewBoxSize(svg).None?
    ensures GetSvgDimensions(svg, NoImage) == Some(DefaultSize)
    ensures GetSvgDimensions(svg, Loaded(0, 5)) == Some(DefaultSize)
  {
  }
}
