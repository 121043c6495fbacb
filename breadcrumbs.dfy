/** The dashboard breadcrumbs: one crumb per non-empty segment of the path,
    after a fixed root crumb. */
module Breadcrumbs {
  import opened Seqs
  import opened Strings

  /** The path's segments: the non-empty pieces between slashes. */
  function Segments(path: string): (r: seq<string>)
    ensures forall k :: 0 <= k < |r| ==> r[k] != "" && '/' !in r[k]
  {
    Filter((segment: string) => segment != "", Split(path, '/'))
  }

  /** A doubled slash adds no segment. */
  lemma RepeatedSlash(a: string, b: string)
    ensures Segments(a + "//" + b) == Segments(a + "/" + b)
  {
    var p := (segment: string) => segment != "";
    assert a + "//" + b == a + ['/'] + ("/" + b);
    assert "/" + b == "" + ['/'] + b;
    assert a + "/" + b == a + ['/'] + b;
    SplitAround(a, '/', "/" + b);
    SplitAround("", '/', b);
    SplitAround(a, '/', b);
    assert Split("", '/') == [""];
    FilterAppend(p, Split(a, '/'), [""] + Split(b, '/'));
    FilterAppend(p, [""], Split(b, '/'));
    FilterAppend(p, Split(a, '/'), Split(b, '/'));
  }

  /** A trailing slash adds no segment. */
  lemma TrailingSlash(a: string)
    ensures Segments(a + "/") == Segments(a)
  {
    var p := (segment: string) => segment != "";
    assert a + "/" == a + ['/'] + "";
    SplitAround(a, '/', "");
    assert Split("", '/') == [""];
    FilterAppend(p, Split(a, '/'), [""]);
  }

  /** The canonical path of a list of segments gives that list back. */
  lemma SegmentsOfHref(segs: seq<string>)
    requires forall k :: 0 <= k < |segs| ==> segs[k] != "" && '/' !in segs[k]
    ensures Segments("/" + Join(segs, "/")) == segs
  {
    var p := (segment: string) => segment != "";
    assert "/" + Join(segs, "/") == "" + ['/'] + Join(segs, "/");
    SplitAround("", '/', Join(segs, "/"));
    assert Split("", '/') == [""];
    if |segs| == 0 {
      assert Split(Join(segs, "/"), '/') == [""];
    } else {
      SplitJoin(segs, '/');
      FilterAll(p, segs);
    }
    FilterAppend(p, [""], Split(Join(segs, "/"), '/'));
  }

  // ---------------------------------------------------------------------------
  // Crumbs

  /** A crumb: its title, its link target, and whether it is the current page
      (shown as text) rather than a link. */
  datatype Crumb = Crumb(title: string, href: string, isPage: bool)

  const Root := Crumb("HomeForge", "/", false)

  /** The href of crumb `i`: a slash and the first `i + 1` segments joined by
      slashes. */
  function Href(segs: seq<string>, i: nat): (r: string)
    requires i < |segs|
    ensures StartsWith(r, "/")
  {
    "/" + Join(segs[..i + 1], "/")
  }

  /** Each href extends the one before by a slash and the next segment. */
  lemma HrefExtends(segs: seq<string>, i: nat)
    requires i + 1 < |segs|
    ensures Href(segs, i + 1) == Href(segs, i) + "/" + segs[i + 1]
    ensures StartsWith(Href(segs, i + 1), Href(segs, i))
  {
    assert segs[..i + 2] == segs[..i + 1] + [segs[i + 1]];
    JoinSnoc(segs[..i + 1], segs[i + 1], "/");
    var h := Href(segs, i);
    assert Href(segs, i + 1)[..|h|] == h;
  }

  /** The href of a crumb, read back as a path, names exactly the segments
      up to that crumb. */
  lemma HrefSegments(segs: seq<string>, i: nat)
    requires i < |segs|
    requires forall k :: 0 <= k < |segs| ==> segs[k] != "" && '/' !in segs[k]
    ensures Segments(Href(segs, i)) == segs[..i + 1]
  {
    SegmentsOfHref(segs[..i + 1]);
  }

  /** `c === '-' ? ' ' : c`. */
  function Undash(c: char): char { if c == '-' then ' ' else c }

  /** The first character upper-cased, then the rest with every dash made a
      space. */
  function Title(segment: string): (r: string)
    ensures |r| == |segment|
    ensures |segment| > 0 ==> r[0] == UpperChar(segment[0])
    ensures forall k :: 1 <= k < |r| ==> r[k] == Undash(segment[k])
    ensures forall k :: 1 <= k < |r| ==> r[k] != '-'
  {
    if |segment| == 0 then ""
    else [UpperChar(segment[0])] + seq(|segment| - 1, k requires 0 <= k < |segment| - 1 => Undash(segment[k + 1]))
  }

  /** The crumb of segment `i`; the last one is the page. */
  function SegmentCrumb(segs: seq<string>, i: nat): Crumb
    requires i < |segs|
  {
    Crumb(Title(segs[i]), Href(segs, i), i == |segs| - 1)
  }

  /** The crumbs for a path: the root, then one per segment. */
  function Crumbs(path: string): (r: seq<Crumb>)
    ensures |r| == |Segments(path)| + 1 && r[0] == Root
    ensures forall i :: 0 < i < |r| ==> r[i] == SegmentCrumb(Segments(path), i - 1)
  {
    var segs := Segments(path);
    seq(|segs| + 1, j requires 0 <= j <= |segs| => if j == 0 then Root else SegmentCrumb(segs, j - 1))
  }

  /** Only the last segment crumb is a page; the root crumb is always a link. */
  lemma OnlyLastIsPage(path: string, j: nat)
    requires j < |Crumbs(path)|
    ensures Crumbs(path)[j].isPage <==> j > 0 && j == |Crumbs(path)| - 1
  {
  }

  /** Every crumb's href is a prefix of the next one's. */
  lemma CrumbHrefsNest(path: string, j: nat)
    requires j + 1 < |Crumbs(path)|
    ensures StartsWith(Crumbs(path)[j + 1].href, Crumbs(path)[j].href)
  {
    var segs := Segments(path);
    if j > 0 {
      HrefExtends(segs, j - 1);
    }
  }

  /** Repeated and trailing slashes change no crumb. */
  lemma CrumbsIgnoreExtraSlashes(a: string, b: string)
    ensures Crumbs(a + "//" + b) == Crumbs(a + "/" + b)
    ensures Crumbs(a + "/") == Crumbs(a)
  {
    RepeatedSlash(a, b);
    TrailingSlash(a);
  }
}
