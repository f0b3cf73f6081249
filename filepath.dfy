/**
 * A simplified model of Go's `path/filepath` on a system whose separator is
 * '/'. Clean is modelled as: collapse runs of separators into one, drop a
 * trailing separator (except for the root "/"), and turn "" into ".". Go's
 * Clean also resolves "." and ".." elements; this model does not, so it
 * agrees with Go on paths that contain no such elements.
 */
module FilePath {
  import opened GoStrings

  const Separator: char := '/'

  /** No two separators in a row. */
  predicate NoRepeatedSeparator(s: string) {
    forall i :: 0 < i < |s| ==> !(s[i - 1] == Separator && s[i] == Separator)
  }

  /** Replaces every run of separators by a single one. */
  function CollapseSeparators(s: string): (r: string)
    ensures |r| <= |s|
    ensures |s| > 0 ==> |r| > 0 && r[0] == s[0] && r[|r| - 1] == s[|s| - 1]
    ensures NoRepeatedSeparator(r)
    decreases |s|
  {
    if |s| <= 1 then s
    else if s[|s| - 1] == Separator && s[|s| - 2] == Separator then CollapseSeparators(s[..|s| - 1])
    else CollapseSeparators(s[..|s| - 1]) + [s[|s| - 1]]
  }

  function DropTrailingSeparator(t: string): string {
    if |t| > 1 && t[|t| - 1] == Separator then t[..|t| - 1] else t
  }

  /** filepath.Clean, without the resolution of "." and ".." elements. */
  function Clean(s: string): (r: string)
    ensures s == "" ==> r == "."
    ensures |r| > 0
    ensures NoRepeatedSeparator(r)
    ensures |r| > 1 ==> r[|r| - 1] != Separator
  {
    if s == "" then "." else DropTrailingSeparator(CollapseSeparators(s))
  }

  /** filepath.Join of two elements: the non-empty tail of the list joined by '/' and cleaned. */
  function Join(a: string, b: string): (r: string)
    ensures r == "" <==> a == "" && b == ""
    ensures NoRepeatedSeparator(r)
  {
    if a != "" then Clean(a + [Separator] + b)
    else if b != "" then Clean(b)
    else ""
  }

  /** filepath.Join of three elements. */
  function Join3(a: string, b: string, c: string): (r: string)
    ensures r == "" <==> a == "" && b == "" && c == ""
    ensures NoRepeatedSeparator(r)
  {
    if a != "" then Clean(a + [Separator] + b + [Separator] + c)
    else if b != "" then Clean(b + [Separator] + c)
    else if c != "" then Clean(c)
    else ""
  }

  /** filepath.Base without its cleaning: the final element, everything after the last separator. */
  function FinalElement(p: string): (b: string)
    ensures HasSuffix(p, b)
    ensures Separator !in b
    decreases |p|
  {
    if p == [] || p[|p| - 1] == Separator then []
    else
      var init := p[..|p| - 1];
      var b := FinalElement(init);
      assert init[|init| - |b|..] == b;
      assert p[|p| - |b| - 1..] == init[|init| - |b|..] + [p[|p| - 1]];
      b + [p[|p| - 1]]
  }

  /**
   * filepath.Ext: the suffix of the final element that starts at its last
   * dot, or "" when the final element has no dot (ExtIsLastDotSuffix).
   */
  function Ext(p: string): (r: string)
    ensures r != [] ==> r[0] == '.' && HasSuffix(p, r)
    decreases |p|
  {
    if p == [] || p[|p| - 1] == Separator then []
    else if p[|p| - 1] == '.' then "."
    else
      var e := Ext(p[..|p| - 1]);
      if e == [] then [] else e + [p[|p| - 1]]
  }

  /** One character that is neither a separator nor a dot extends both the final element and a non-empty extension. */
  lemma ExtStep(p: string)
    requires p != [] && p[|p| - 1] != Separator && p[|p| - 1] != '.'
    ensures FinalElement(p) == FinalElement(p[..|p| - 1]) + [p[|p| - 1]]
    ensures Ext(p) == if Ext(p[..|p| - 1]) == [] then [] else Ext(p[..|p| - 1]) + [p[|p| - 1]]
  {
  }

  /** A suffix stays a suffix when the same character is appended to both. */
  lemma SuffixExtend(b: string, e: string, c: char)
    requires HasSuffix(b, e) && e != []
    ensures HasSuffix(b + [c], e + [c])
    ensures (e + [c])[0] == e[0] && (e + [c])[1..] == e[1..] + [c]
  {
    assert (b + [c])[|b + [c]| - |e + [c]|..] == b[|b| - |e|..] + [c];
  }

  /** Ext is empty exactly when the final element has no dot, and otherwise starts at its last dot. */
  lemma {:induction false} ExtIsLastDotSuffix(p: string)
    ensures Ext(p) == [] <==> '.' !in FinalElement(p)
    ensures Ext(p) != [] ==> Ext(p)[0] == '.' && HasSuffix(FinalElement(p), Ext(p)) && '.' !in Ext(p)[1..]
    decreases |p|
  {
    if p != [] && p[|p| - 1] != Separator && p[|p| - 1] != '.' {
      var init := p[..|p| - 1];
      var c := p[|p| - 1];
      ExtIsLastDotSuffix(init);
      ExtStep(p);
      var e := Ext(init);
      if e != [] {
        SuffixExtend(FinalElement(init), e, c);
      }
    }
  }

  /** Characters added in front of a path that has an extension do not change it. */
  lemma {:induction false} ExtPrepend(c: char, p: string)
    requires Ext(p) != ""
    ensures Ext([c] + p) == Ext(p)
    decreases |p|
  {
    var q := [c] + p;
    assert q[|q| - 1] == p[|p| - 1];
    if p[|p| - 1] != '.' {
      assert q[..|q| - 1] == [c] + p[..|p| - 1];
      ExtPrepend(c, p[..|p| - 1]);
    }
  }

  /** A name without separators joined onto a non-empty path follows the collapsed path and one separator. */
  lemma JoinNameShape(x: string, w: string)
    requires x != "" && w != "" && Separator !in w
    ensures Join(x, w) == CollapseSeparators(x + [Separator]) + w
  {
    CollapseAppend(x + [Separator], w);
    var c := CollapseSeparators(x + [Separator]);
    assert (c + w)[|c + w| - 1] == w[|w| - 1];
  }

  /** Collapsing `<d><w>`, where `w` has no separator, keeps `w` at the end and adds a trailing separator as is. */
  lemma CollapseNameSuffix(d: string, w: string)
    requires w != "" && Separator !in w
    ensures HasSuffix(CollapseSeparators(d + w), w)
    ensures CollapseSeparators(d + w + [Separator]) == CollapseSeparators(d + w) + [Separator]
  {
    var g := d + w;
    var gs := g + [Separator];
    assert gs[..|gs| - 1] == g;
    assert g[|g| - 1] == w[|w| - 1] != Separator;
    if d == "" {
      assert g == w;
      CollapseNoSeparator(w);
    } else {
      CollapseAppend(d, w);
      var c := CollapseSeparators(d);
      assert (c + w)[|c + w| - |w|..] == w;
    }
  }

  /** Joining `w2` onto `<d><w1>`, both names without separators, ends in `<w1>/<w2>`. */
  lemma JoinNamesSuffix(d: string, w1: string, w2: string)
    requires w1 != "" && w2 != "" && Separator !in w1 && Separator !in w2
    ensures HasSuffix(Join(d + w1, w2), w1 + [Separator] + w2)
  {
    var g := d + w1;
    var c := CollapseSeparators(g);
    var t := [Separator] + w2;
    JoinNameShape(g, w2);
    CollapseNameSuffix(d, w1);
    assert g + [Separator] == d + w1 + [Separator];
    assert Join(g, w2) == c + [Separator] + w2;
    HasSuffixAppend(c, w1, t);
    assert c + t == c + [Separator] + w2;
    assert w1 + t == w1 + [Separator] + w2;
  }

  /** Characters that are not separators extend the final element. */
  lemma {:induction false} FinalElementAppend(d: string, w: string)
    requires Separator !in w
    ensures FinalElement(d + w) == FinalElement(d) + w
    decreases |w|
  {
    if w == [] {
      assert d + w == d;
    } else {
      var w' := w[..|w| - 1];
      var dw := d + w;
      var c := w[|w| - 1];
      assert dw[..|dw| - 1] == d + w';
      assert dw[|dw| - 1] == c && c != Separator;
      assert Separator !in w' by {
        assert forall x :: x in w' ==> x in w;
      }
      FinalElementAppend(d, w');
      assert FinalElement(dw) == FinalElement(d + w') + [c];
      assert w == w' + [c];
    }
  }

  /** A path without repeated separators is left alone by the collapsing step of Clean. */
  lemma {:induction false} CollapseNoRepeat(s: string)
    requires NoRepeatedSeparator(s)
    ensures CollapseSeparators(s) == s
    decreases |s|
  {
    if |s| > 1 {
      var init := s[..|s| - 1];
      assert NoRepeatedSeparator(init) by {
        forall i | 0 < i < |init| ensures !(init[i - 1] == Separator && init[i] == Separator) {
          assert init[i - 1] == s[i - 1] && init[i] == s[i];
        }
      }
      CollapseNoRepeat(init);
      assert !(s[|s| - 2] == Separator && s[|s| - 1] == Separator);
      assert s == init + [s[|s| - 1]];
    }
  }

  /** A path with no separator is left alone by the collapsing step of Clean. */
  lemma {:induction false} CollapseNoSeparator(s: string)
    requires Separator !in s
    ensures CollapseSeparators(s) == s
    decreases |s|
  {
    if |s| > 1 {
      CollapseNoSeparator(s[..|s| - 1]);
    }
  }

  /** Characters that are not separators pass through the collapsing step unchanged. */
  lemma {:induction false} CollapseAppend(s: string, w: string)
    requires |s| > 0 && Separator !in w
    ensures CollapseSeparators(s + w) == CollapseSeparators(s) + w
    decreases |w|
  {
    if w != [] {
      var w' := w[..|w| - 1];
      var sw := s + w;
      assert sw[..|sw| - 1] == s + w';
      assert sw[|sw| - 1] == w[|w| - 1] != Separator;
      CollapseAppend(s, w');
      assert CollapseSeparators(sw) == CollapseSeparators(s + w') + [w[|w| - 1]];
      assert w == w' + [w[|w| - 1]];
    } else {
      assert s + w == s;
    }
  }

  /** A trailing separator does not change a cleaned path. */
  lemma CleanTrailingSeparator(s: string)
    requires s != ""
    ensures Clean(s + [Separator]) == Clean(s)
  {
    assert (s + [Separator])[..|s|] == s;
  }

  /** A final element `<name>.<w>` with no further dot has extension `.<w>`. */
  lemma {:induction false} ExtAfterLastDot(u: string, w: string)
    requires '.' !in w && Separator !in w
    ensures Ext(u + "." + w) == "." + w
    decreases |w|
  {
    if w != [] {
      var w' := w[..|w| - 1];
      assert (u + "." + w)[..|u + "." + w| - 1] == u + "." + w';
      ExtAfterLastDot(u, w');
    } else {
      assert u + "." + w == u + ".";
    }
  }

  lemma IndexHtmlFacts()
    ensures Separator !in "index.html" && '.' !in "html" && Separator !in "html"
    ensures "index" + "." + "html" == "index.html"
  {
  }

  /** Any path ending in "index.html" has extension ".html". */
  lemma ExtIndexHtml(c: string)
    ensures Ext(c + "index.html") == ".html"
  {
    IndexHtmlFacts();
    ExtAfterLastDot(c + "index", "html");
    assert c + "index" + "." + "html" == c + "index.html";
  }

  /** Joining "index.html" onto any path gives a path ending in "index.html" with extension ".html". */
  lemma JoinIndexHtml(x: string)
    ensures HasSuffix(Join(x, "index.html"), "index.html")
    ensures Ext(Join(x, "index.html")) == ".html"
  {
    var c := if x == "" then "" else CollapseSeparators(x + [Separator]);
    JoinIndexHtmlShape(x);
    assert x == "" ==> "index.html" == c + "index.html";
    var j := Join(x, "index.html");
    assert j == c + "index.html";
    ExtIndexHtml(c);
    assert j[|j| - |"index.html"|..] == "index.html";
  }

  lemma JoinIndexHtmlShape(x: string)
    ensures x == "" ==> Join(x, "index.html") == "index.html"
    ensures x != "" ==> Join(x, "index.html") == CollapseSeparators(x + [Separator]) + "index.html"
  {
    IndexHtmlFacts();
    if x == "" {
      CollapseNoSeparator("index.html");
    } else {
      CollapseAppend(x + [Separator], "index.html");
      var c := CollapseSeparators(x + [Separator]);
      assert (c + "index.html")[|c + "index.html"| - 1] == 'l';
    }
  }

  /** `x/` and `x` give the same path once "index.html" is joined onto them. */
  lemma JoinIndexHtmlTrailingSeparator(x: string)
    requires x != ""
    ensures Join(x + [Separator], "index.html") == Join(x, "index.html")
  {
    var s1 := x + [Separator];
    var s2 := s1 + [Separator];
    CollapseAppend(s2, "index.html");
    CollapseAppend(s1, "index.html");
    assert s2[..|s2| - 1] == s1;
    assert CollapseSeparators(s2) == CollapseSeparators(s1);
    assert s2 + "index.html" == x + [Separator] + [Separator] + "index.html";
    assert s1 + "index.html" == x + [Separator] + "index.html";
  }
}
