/**
 * The part of Go's `path/filepath` (on a Unix system) that the mirror of develop/dev09 relies
 * on to name its local files: Clean, Join, Ext and Dir.
 */
module FilePath {
  import opened Strings

  /** The slash-separated elements of a path, empty ones included: "/a//b" gives "", "a", "", "b". */
  function Segments(s: string): (r: seq<string>)
    ensures |r| >= 1 && forall k :: 0 <= k < |r| ==> '/' !in r[k]
  {
    if s == [] then [[]]
    else
      var rest := Segments(s[1..]);
      if s[0] == '/' then [[]] + rest else [[s[0]] + rest[0]] + rest[1..]
  }

  /** The elements put back together with slashes are the path again. */
  lemma {:induction false} SegmentsJoin(s: string)
    ensures Join(Segments(s), "/") == s
  {
    if s != [] {
      var rest := Segments(s[1..]);
      SegmentsJoin(s[1..]);
      if s[0] == '/' {
        JoinCons([], rest, "/");
      } else if |rest| == 1 {
        assert Segments(s) == [[s[0]] + rest[0]];
      } else {
        assert rest == [rest[0]] + rest[1..];
        JoinCons(rest[0], rest[1..], "/");
        JoinCons([s[0]] + rest[0], rest[1..], "/");
      }
    }
  }

  lemma {:induction false} SegmentsOfName(a: string)
    requires '/' !in a
    ensures Segments(a) == [a]
  {
    if a != [] {
      assert forall c :: c in a[1..] ==> c in a;
      SegmentsOfName(a[1..]);
      assert a[0] != '/' && [a[0]] + a[1..] == a;
    }
  }

  lemma {:induction false} SegmentsAppend(a: string, b: string)
    requires '/' !in a
    ensures Segments(a + "/" + b) == [a] + Segments(b)
  {
    if a == [] {
      assert a + "/" + b == ['/'] + b && (['/'] + b)[1..] == b;
    } else {
      assert (a + "/" + b)[0] == a[0] && (a + "/" + b)[1..] == a[1..] + "/" + b;
      assert forall c :: c in a[1..] ==> c in a;
      SegmentsAppend(a[1..], b);
      assert a[0] != '/' && [a[0]] + a[1..] == a;
    }
  }

  /** An element that Clean keeps: neither empty nor "." and without a slash. */
  predicate Kept(e: string) {
    e != "" && e != "." && '/' !in e
  }

  /** The elements Clean has kept so far; a rooted path never keeps "..". */
  predicate GoodStack(st: seq<string>, rooted: bool) {
    forall k :: 0 <= k < |st| ==> Kept(st[k]) && (rooted ==> st[k] != "..")
  }

  /** One element of Clean: "" and "." vanish, ".." removes the last kept name (at the root it
      vanishes, in a relative path with nothing to remove it is kept). */
  function Push(st: seq<string>, e: string, rooted: bool): seq<string> {
    if e == "" || e == "." then st
    else if e == ".." then
      if |st| > 0 && st[|st| - 1] != ".." then st[..|st| - 1]
      else if rooted then st
      else st + [".."]
    else st + [e]
  }

  function Reduce(segs: seq<string>, rooted: bool): seq<string> {
    if segs == [] then [] else Push(Reduce(segs[..|segs| - 1], rooted), segs[|segs| - 1], rooted)
  }

  lemma {:induction false} ReduceGood(segs: seq<string>, rooted: bool)
    requires forall k :: 0 <= k < |segs| ==> '/' !in segs[k]
    ensures GoodStack(Reduce(segs, rooted), rooted)
  {
    if segs != [] {
      ReduceGood(segs[..|segs| - 1], rooted);
    }
  }

  /** filepath.Clean: the shortest equivalent path; "." for the empty path. */
  function Clean(s: string): string {
    if s == [] then "."
    else
      var rooted := s[0] == '/';
      var body := Join(Reduce(Segments(s), rooted), "/");
      if rooted then "/" + body else if body == [] then "." else body
  }

  /** Kept names joined with slashes: empty only for no names; never starting or ending with a
      slash. */
  lemma {:induction false} JoinKept(st: seq<string>)
    requires forall k :: 0 <= k < |st| ==> Kept(st[k])
    ensures var j := Join(st, "/");
      && (j == [] <==> st == [])
      && (j != [] ==> j[0] != '/' && j[|j| - 1] != '/')
  {
    if |st| > 1 {
      JoinKept(st[1..]);
      assert st[0][0] in st[0];
    } else if |st| == 1 {
      assert st[0][0] in st[0] && st[0][|st[0]| - 1] in st[0];
    }
  }

  /** A cleaned path is never empty, keeps the input's rooting, and ends with a slash only when
      it is the root itself: "/dir/" cleans to "/dir". */
  lemma {:induction false} CleanShape(s: string)
    ensures var c := Clean(s);
      && c != []
      && (c[0] == '/' <==> s != [] && s[0] == '/')
      && (c[|c| - 1] == '/' ==> c == "/")
  {
    if s != [] {
      ReduceGood(Segments(s), s[0] == '/');
      JoinKept(Reduce(Segments(s), s[0] == '/'));
    }
  }

  /** filepath.Join of two elements: empty leading elements are skipped, the rest joined with a
      slash and cleaned; all elements empty gives "". */
  function Join2(a: string, b: string): string {
    if a != [] then Clean(a + "/" + b)
    else if b != [] then Clean(b)
    else ""
  }

  /** With a non-empty first element the joined path is never empty and never ends with a
      slash, unless it is the root. */
  lemma {:induction false} JoinNoTrailingSlash(a: string, b: string)
    requires a != []
    ensures Join2(a, b) != [] && (HasSuffix(Join2(a, b), "/") ==> Join2(a, b) == "/")
  {
    CleanShape(a + "/" + b);
  }

  /** filepath.Ext: the suffix from the last dot of the final element on; "" without one. */
  function Ext(p: string): (r: string)
    ensures r == [] || (r[0] == '.' && HasSuffix(p, r) && '/' !in r && '.' !in r[1..])
  {
    if p == [] then ""
    else
      var c := p[|p| - 1];
      if c == '/' then ""
      else if c == '.' then "."
      else
        var e := Ext(p[..|p| - 1]);
        if e == [] then "" else e + [c]
  }

  /** A final element "name.w", with w free of dots and slashes, has extension ".w". */
  lemma {:induction false} ExtOfSuffix(p: string, w: string)
    requires '.' !in w && '/' !in w
    ensures Ext(p + "." + w) == "." + w
    decreases |w|
  {
    if w != [] {
      var q := p + "." + w;
      assert q[..|q| - 1] == p + "." + w[..|w| - 1];
      ExtOfSuffix(p, w[..|w| - 1]);
      assert "." + w[..|w| - 1] + [w[|w| - 1]] == "." + w;
    } else {
      assert (p + "." + w)[|p|] == '.';
    }
  }

  /** A path without dots has no extension. */
  lemma {:induction false} ExtNone(p: string)
    requires '.' !in p
    ensures Ext(p) == ""
  {
    if p != [] {
      ExtNone(p[..|p| - 1]);
    }
  }

  /** The path up to and including its last slash, "" without one. */
  function DirPrefix(p: string): (r: string)
    ensures |r| <= |p| && r == p[..|r|] && (r == [] || r[|r| - 1] == '/') && '/' !in p[|r|..]
  {
    if p == [] then ""
    else if p[|p| - 1] == '/' then p
    else
      var r := DirPrefix(p[..|p| - 1]);
      assert p[|r|..] == p[..|p| - 1][|r|..] + [p[|p| - 1]];
      r
  }

  /** filepath.Dir: everything but the final element, cleaned. */
  function Dir(p: string): string {
    Clean(DirPrefix(p))
  }

  /** Cleaning a relative path of kept names without ".." gives it back. */
  lemma {:induction false} CleanNames(names: seq<string>)
    requires |names| >= 1 && names[0] != [] && forall k :: 0 <= k < |names| ==> Kept(names[k]) && names[k] != ".."
    ensures Clean(Join(names, "/")) == Join(names, "/")
  {
    JoinKept(names);
    SegmentsOfNames(names);
    ReduceNames(names);
  }

  lemma {:induction false} SegmentsOfNames(names: seq<string>)
    requires |names| >= 1 && forall k :: 0 <= k < |names| ==> '/' !in names[k]
    ensures Segments(Join(names, "/")) == names
  {
    if |names| == 1 {
      SegmentsOfName(names[0]);
    } else {
      SegmentsOfNames(names[1..]);
      SegmentsAppend(names[0], Join(names[1..], "/"));
      assert names == [names[0]] + names[1..];
    }
  }

  lemma {:induction false} ReduceNames(names: seq<string>)
    requires forall k :: 0 <= k < |names| ==> Kept(names[k]) && names[k] != ".."
    ensures Reduce(names, false) == names
  {
    if names != [] {
      ReduceNames(names[..|names| - 1]);
      assert names == names[..|names| - 1] + [names[|names| - 1]];
    }
  }
}
