/** `ensureSvgNamespaces`: the `xmlns` and `xmlns:xlink` declarations added
    to MathJax's SVG markup before it is base64-encoded into an image source. */
module SvgNamespaces {
  import opened Strings

  const SvgOpen := "<svg "
  const XmlnsAttr := "xmlns="
  const XlinkAttr := "xmlns:xlink="
  const XmlnsDecl := "xmlns=\"http://www.w3.org/2000/svg\" "
  const XlinkDecl := "xmlns:xlink=\"http://www.w3.org/1999/xlink\" "

  /** The first step: the default namespace after the first `<svg `, unless `xmlns=` occurs. */
  function AddXmlns(s: string): string {
    if !Contains(s, XmlnsAttr) then ReplaceFirst(s, SvgOpen, SvgOpen + XmlnsDecl) else s
  }

  /** The second step: the xlink namespace, unless `xmlns:xlink=` occurs. */
  function AddXlink(s: string): string {
    if !Contains(s, XlinkAttr) then ReplaceFirst(s, SvgOpen, SvgOpen + XlinkDecl) else s
  }

  function WithNamespaces(markup: string): string {
    AddXlink(AddXmlns(markup))
  }

  /** `ensureSvgNamespaces`. */
  method EnsureSvgNamespaces(markup: string) returns (svgMarkup: string)
    ensures svgMarkup == WithNamespaces(markup)
    ensures Contains(markup, XmlnsAttr) && Contains(markup, XlinkAttr) ==> svgMarkup == markup
  {
    svgMarkup := markup;
    if !Contains(svgMarkup, XmlnsAttr) {
      svgMarkup := ReplaceFirst(svgMarkup, SvgOpen, SvgOpen + XmlnsDecl);
    }
    if !Contains(svgMarkup, XlinkAttr) {
      svgMarkup := ReplaceFirst(svgMarkup, SvgOpen, SvgOpen + XlinkDecl);
    }
  }

  /** `t` occurs in `a + t + b`. */
  lemma ContainsMiddle(a: string, t: string, b: string)
    ensures Contains(a + t + b, t)
  {
    var s := a + t + b;
    assert s[|a|..|a| + |t|] == t;
    assert OccursAt(s, |a|, t);
  }

  /** An occurrence of `t` cannot straddle the end of an occurrence of `w`
      when neither starts with a character of the other. */
  lemma NoStraddle(s: string, w: string, t: string, i: nat, j: nat)
    requires OccursAt(s, i, w) && OccursAt(s, j, t) && w != [] && t != []
    requires Lacks(t, w[0]) && Lacks(w, t[0])
    ensures j + |t| <= i + |w| || j >= i + |w|
  {
    assert forall m :: i <= m < i + |w| ==> s[m] == w[m - i];
    assert forall m :: j <= m < j + |t| ==> s[m] == t[m - j];
  }

  /** An occurrence that ends by the insertion point stays where it is. */
  lemma InsertBefore(s: string, k: nat, q: string, t: string, j: nat)
    requires OccursAt(s, j, t) && j + |t| <= k <= |s|
    ensures OccursAt(s[..k] + q + s[k..], j, t)
  {
    OccursInPrefix(s, k, j, t);
    OccursInLeft(s[..k], q, j, t);
    OccursInLeft(s[..k] + q, s[k..], j, t);
  }

  /** An occurrence that starts at or after the insertion point moves by `|q|`. */
  lemma InsertAfter(s: string, k: nat, q: string, t: string, j: nat)
    requires OccursAt(s, j, t) && k <= j
    ensures OccursAt(s[..k] + q + s[k..], j + |q|, t)
  {
    OccursInSuffix(s, k, j, t);
    OccursInRight(s[..k] + q, s[k..], j - k, t);
  }

  lemma SpliceAfter(s: string, i: nat, w: string, q: string)
    requires OccursAt(s, i, w)
    ensures s[..i] + (w + q) + s[i + |w|..] == s[..i + |w|] + q + s[i + |w|..]
  {
    assert s[..i] + w == s[..i + |w|];
  }

  /** Inserting `q` right after the first `w` keeps every occurrence of a
      text `t` that cannot overlap the insertion point. */
  lemma InsertKeeps(s: string, w: string, q: string, t: string)
    requires w != [] && t != [] && Contains(s, t)
    requires Lacks(t, w[0]) && Lacks(w, t[0])
    ensures Contains(ReplaceFirst(s, w, w + q), t)
  {
    if Contains(s, w) {
      var i := IndexOf(s, w);
      var j :| 0 <= j <= |s| - |t| && OccursAt(s, j, t);
      InsertKeepsAt(s, w, q, t, i, j);
    }
  }

  lemma InsertKeepsAt(s: string, w: string, q: string, t: string, i: nat, j: nat)
    requires w != [] && t != [] && Contains(s, w) && i == IndexOf(s, w) && OccursAt(s, j, t)
    requires Lacks(t, w[0]) && Lacks(w, t[0])
    ensures Contains(ReplaceFirst(s, w, w + q), t)
  {
    var k := i + |w|;
    var r := ReplaceFirst(s, w, w + q);
    SpliceAfter(s, i, w, q);
    assert r == s[..k] + q + s[k..];
    NoStraddle(s, w, t, i, j);
    if j + |t| <= k {
      InsertBefore(s, k, q, t, j);
      ContainsAt(r, j, t);
    } else {
      InsertAfter(s, k, q, t, j);
      ContainsAt(r, j + |q|, t);
    }
  }

  /** Inserting after `w` puts the inserted text into the markup. */
  lemma InsertPresent(s: string, w: string, q: string, t: string)
    requires Contains(s, w) && Contains(q, t)
    ensures Contains(ReplaceFirst(s, w, w + q), t)
  {
    var j :| 0 <= j <= |q| - |t| && OccursAt(q, j, t);
    InsertPresentAt(s, w, q, t, j);
    ContainsAt(ReplaceFirst(s, w, w + q), IndexOf(s, w) + (|w| + j), t);
  }

  lemma InsertPresentAt(s: string, w: string, q: string, t: string, j: nat)
    requires Contains(s, w) && OccursAt(q, j, t)
    ensures OccursAt(ReplaceFirst(s, w, w + q), IndexOf(s, w) + (|w| + j), t)
  {
    var i := IndexOf(s, w);
    OccursInRight(w, q, j, t);
    OccursInMiddle(s[..i], w + q, s[i + |w|..], |w| + j, t);
  }

  lemma DeclsHoldAttrs()
    ensures Contains(XmlnsDecl, XmlnsAttr) && Contains(XlinkDecl, XlinkAttr)
  {
    assert XmlnsDecl == [] + XmlnsAttr + XmlnsDecl[6..];
    ContainsMiddle([], XmlnsAttr, XmlnsDecl[6..]);
    assert XlinkDecl == [] + XlinkAttr + XlinkDecl[12..];
    ContainsMiddle([], XlinkAttr, XlinkDecl[12..]);
  }

  /** Replacing `<svg ` by a longer text that starts with it keeps a `<svg `. */
  lemma InsertKeepsOpen(s: string, q: string)
    requires Contains(s, SvgOpen)
    ensures Contains(ReplaceFirst(s, SvgOpen, SvgOpen + q), SvgOpen)
  {
    var i := IndexOf(s, SvgOpen);
    var r := ReplaceFirst(s, SvgOpen, SvgOpen + q);
    assert r == s[..i] + SvgOpen + (q + s[i + |SvgOpen|..]);
    ContainsMiddle(s[..i], SvgOpen, q + s[i + |SvgOpen|..]);
  }

  /** When the markup has an `<svg ` tag, both namespace attributes are there afterwards. */
  lemma NamespacesPresent(markup: string)
    requires Contains(markup, SvgOpen)
    ensures Contains(WithNamespaces(markup), XmlnsAttr) && Contains(WithNamespaces(markup), XlinkAttr)
  {
    DeclsHoldAttrs();
    var m1 := AddXmlns(markup);
    if !Contains(markup, XmlnsAttr) {
      InsertPresent(markup, SvgOpen, XmlnsDecl, XmlnsAttr);
      InsertKeepsOpen(markup, XmlnsDecl);
    }
    assert Contains(m1, XmlnsAttr) && Contains(m1, SvgOpen);
    if !Contains(m1, XlinkAttr) {
      InsertPresent(m1, SvgOpen, XlinkDecl, XlinkAttr);
      InsertKeeps(m1, SvgOpen, XlinkDecl, XmlnsAttr);
    }
  }

  /** Without an `<svg ` tag there is nowhere to insert, and nothing changes. */
  lemma NamespacesNoTag(markup: string)
    requires !Contains(markup, SvgOpen)
    ensures WithNamespaces(markup) == markup
  {
  }

  /** `ensureSvgNamespaces` is idempotent. */
  lemma NamespacesIdempotent(markup: string)
    ensures WithNamespaces(WithNamespaces(markup)) == WithNamespaces(markup)
  {
    if Contains(markup, SvgOpen) {
      NamespacesPresent(markup);
    }
  }
}
