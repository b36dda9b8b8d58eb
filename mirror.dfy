/**
 * The same-host mirror of develop/dev09 (`go-wget <url>`): a page is fetched once per URL
 * string, saved under a local path derived from the URL, and, when it is an HTML page, its
 * images, scripts, stylesheets and links on the same host are mirrored in turn and their
 * references rewritten to relative local paths.
 *
 * The network, the HTML parser and renderer, URL resolution and filepath.Rel are oracles fixed
 * when the mirror is made; the file system is the map `files` from local path to contents.
 */
module Mirror {
  import opened Wrappers
  import opened Strings
  import opened FilePath

  datatype NodeType = ErrorNode | TextNode | DocumentNode | ElementNode | CommentNode | DoctypeNode

  datatype Attribute = Attribute(key: string, val: string)

  /** An html.Node: its children are the FirstChild/NextSibling list in sibling order. */
  datatype Node = Node(kind: NodeType, data: string, attrs: seq<Attribute>, children: seq<Node>)

  /** A parsed URL: `text` is what u.String() gives. */
  datatype Url = Url(text: string, host: string, path: string)

  datatype MirrorError = FetchFailed | ParseFailed | BadReference

  /** getAttr: the value of the first attribute named `key`, "" when there is none. */
  function GetAttr(attrs: seq<Attribute>, key: string): (r: string)
    ensures (forall i :: 0 <= i < |attrs| ==> attrs[i].key != key) ==> r == ""
    ensures forall i :: 0 <= i < |attrs| && attrs[i].key == key ==>
      (forall j :: 0 <= j < i ==> attrs[j].key != key) ==> r == attrs[i].val
  {
    if attrs == [] then ""
    else if attrs[0].key == key then attrs[0].val
    else
      var r := GetAttr(attrs[1..], key);
      assert forall i :: 1 <= i < |attrs| ==> attrs[i] == attrs[1..][i - 1];
      r
  }

  /** What downloadResources does with a node before visiting its children. */
  datatype Action = Recurse | Prune | Follow(attrName: string)

  /** The extraction policy. */
  function Policy(n: Node): Action {
    if n.kind != ElementNode then Recurse
    else if n.data == "img" || n.data == "script" then Follow("src")
    else if n.data == "link" then
      if GetAttr(n.attrs, "rel") != "stylesheet" then Prune else Follow("href")
    else if n.data == "a" then Follow("href")
    else Recurse
  }

  /** Only images and scripts follow `src`; only stylesheet links and anchors follow `href`;
      a link of any other kind is pruned; text, comments and other elements are only
      recursed into. */
  lemma {:induction false} PolicyCases(n: Node)
    ensures Policy(n) == Follow("src") <==> n.kind == ElementNode && n.data in {"img", "script"}
    ensures Policy(n) == Follow("href") <==>
      n.kind == ElementNode && (n.data == "a" || (n.data == "link" && GetAttr(n.attrs, "rel") == "stylesheet"))
    ensures Policy(n) == Prune <==>
      n.kind == ElementNode && n.data == "link" && GetAttr(n.attrs, "rel") != "stylesheet"
    ensures Policy(n) == Recurse <==>
      n.kind != ElementNode || n.data !in {"img", "script", "link", "a"}
  {
  }

  /** The local path a page is saved under (the slash branch adds "index.html"; an extensionless
      path gets ".html"). */
  function LocalPath(baseDir: string, path: string): string {
    var p := Join2(baseDir, path);
    if HasSuffix(p, "/") then Join2(p, "index.html")
    else if Ext(p) == "" then p + ".html"
    else p
  }

  /** A page is parsed and its resources mirrored exactly when it is saved as .html. */
  predicate IsHtml(localPath: string) {
    HasSuffix(localPath, ".html")
  }

  /** For a base directory that is neither empty nor rooted the "index.html" branch is never
      taken: Join has already removed any trailing slash. */
  lemma {:induction false} IndexBranchUnreachable(baseDir: string, path: string)
    requires baseDir != [] && baseDir[0] != '/'
    ensures !HasSuffix(Join2(baseDir, path), "/")
    ensures var p := Join2(baseDir, path);
      LocalPath(baseDir, path) == if Ext(p) == "" then p + ".html" else p
  {
    var s := baseDir + "/" + path;
    assert s[0] == baseDir[0];
    CleanShape(s);
  }

  /** A directory URL "/d/" of host h (d a plain name without a dot) is saved as "h/d.html",
      not as "h/d/index.html". */
  lemma {:induction false} DirectoryUrl(host: string, d: string)
    requires Kept(host) && host != ".." && Kept(d) && d != ".." && '.' !in d
    ensures LocalPath(host, "/" + d + "/") == host + "/" + d + ".html"
  {
    JoinNameDir(host, d);
    ExtLastName(host, d);
  }

  /** The root page of host h is saved under "h" itself when h has an extension, as
      "example.com" has: it then gets no ".html" and is not parsed. */
  lemma {:induction false} RootPage(host: string)
    requires Kept(host) && host != ".." && Ext(host) != ""
    ensures LocalPath(host, "") == host && LocalPath(host, "/") == host
    ensures !IsHtml(LocalPath(host, "/")) <==> !HasSuffix(host, ".html")
  {
    JoinNameRoot(host);
  }

  lemma {:induction false} ExampleHost()
    ensures Ext("example.com") == ".com" && !IsHtml("example.com")
  {
    ExtOfSuffix("example", "com");
    assert "example" + "." + "com" == "example.com";
  }

  lemma {:induction false} JoinNameRoot(h: string)
    requires Kept(h) && h != ".."
    ensures Join2(h, "") == h && Join2(h, "/") == h
  {
    SegmentsAppend(h, "");
    SegmentsAppend(h, "/");
    SegmentsAppend([], "");
    assert "/" == [] + "/" + "";
    ReduceNames([h]);
    var empty: string := [];
    assert Segments(h + "/" + "") == [h, empty];
    assert Segments(h + "/" + "/") == [h, empty, empty];
    assert [h, empty][..1] == [h];
    assert [h, empty, empty][..2] == [h, empty];
    assert (h + "/")[0] == h[0] && h[0] in h;
  }

  lemma {:induction false} JoinNameDir(h: string, d: string)
    requires Kept(h) && h != ".." && Kept(d) && d != ".."
    ensures Join2(h, "/" + d + "/") == h + "/" + d
  {
    var empty: string := [];
    SegmentsAppend(d, "");
    SegmentsAppend([], d + "/" + "");
    SegmentsAppend(h, "/" + d + "/");
    assert "/" + d + "/" == [] + "/" + (d + "/" + "");
    assert Segments(h + "/" + ("/" + d + "/")) == [h, empty, d, empty];
    var segs := [h, empty, d, empty];
    assert segs[..3] == [h, empty, d] && segs[..3][..2] == [h, empty] && segs[..3][..2][..1] == [h];
    assert h != "" && h != "." && d != "" && d != ".";
    assert Reduce([h], false) == [h] by { assert [h][..0] == []; }
    assert Reduce([h, empty], false) == [h];
    assert Reduce([h, empty, d], false) == [h, d];
    assert Reduce(segs, false) == [h, d];
    assert (h + "/" + ("/" + d + "/"))[0] == h[0] && h[0] in h;
    JoinCons(h, [d], "/");
  }

  lemma {:induction false} ExtLastName(h: string, d: string)
    requires '.' !in d && '/' !in d
    ensures Ext(h + "/" + d) == ""
    decreases |d|
  {
    var p := h + "/" + d;
    if d != [] {
      assert p[..|p| - 1] == h + "/" + d[..|d| - 1];
      assert p[|p| - 1] == d[|d| - 1] && d[|d| - 1] in d;
      ExtLastName(h, d[..|d| - 1]);
    } else {
      assert p[|p| - 1] == '/';
    }
  }

  /** The line printed once a page is saved. */
  function Downloaded(u: Url): string {
    "Downloaded " + u.text
  }

  /** A tree with every attribute value erased: two trees with the same skeleton differ at
      most in attribute values. */
  function Skeleton(n: Node): Node
    decreases n, 0
  {
    Node(n.kind, n.data, Keys(n.attrs), Skeletons(n.children))
  }

  function Skeletons(cs: seq<Node>): seq<Node>
    decreases cs, 1
  {
    seq(|cs|, i requires 0 <= i < |cs| => Skeleton(cs[i]))
  }

  function Keys(attrs: seq<Attribute>): seq<Attribute> {
    seq(|attrs|, i requires 0 <= i < |attrs| => Attribute(attrs[i].key, ""))
  }

  /** Same skeleton: same node types, tags, attribute keys and tree structure. */
  lemma {:induction false} SkeletonMeans(a: Node, b: Node)
    requires Skeleton(a) == Skeleton(b)
    ensures a.kind == b.kind && a.data == b.data && |a.attrs| == |b.attrs| && |a.children| == |b.children|
    ensures forall i :: 0 <= i < |a.attrs| ==> a.attrs[i].key == b.attrs[i].key
    ensures forall i :: 0 <= i < |a.children| ==> Skeleton(a.children[i]) == Skeleton(b.children[i])
  {
    KeysMeans(a.attrs, b.attrs);
    SkeletonsMeans(a.children, b.children);
  }

  lemma {:induction false} KeysMeans(a: seq<Attribute>, b: seq<Attribute>)
    requires Keys(a) == Keys(b)
    ensures |a| == |b| && forall i :: 0 <= i < |a| ==> a[i].key == b[i].key
  {
    assert |Keys(a)| == |a|;
    forall i | 0 <= i < |a| ensures a[i].key == b[i].key {
      assert Keys(a)[i] == Keys(b)[i];
    }
  }

  lemma {:induction false} SkeletonsMeans(a: seq<Node>, b: seq<Node>)
    requires Skeletons(a) == Skeletons(b)
    ensures |a| == |b| && forall i :: 0 <= i < |a| ==> Skeleton(a[i]) == Skeleton(b[i])
  {
    assert |Skeletons(a)| == |a|;
    forall i | 0 <= i < |a| ensures Skeleton(a[i]) == Skeleton(b[i]) {
      assert Skeletons(a)[i] == Skeletons(b)[i];
    }
  }

  lemma {:induction false} SkeletonsUpdate(cs: seq<Node>, i: int, c: Node)
    requires 0 <= i < |cs| && Skeleton(c) == Skeleton(cs[i])
    ensures Skeletons(cs[i := c]) == Skeletons(cs)
  {
  }

  lemma {:induction false} KeysSame(a: seq<Attribute>, b: seq<Attribute>)
    requires |a| == |b| && forall k :: 0 <= k < |a| ==> a[k].key == b[k].key
    ensures Keys(a) == Keys(b)
  {
  }

  /** The reference an attribute is rewritten to: the target's unsuffixed joined path, relative
      to the directory of the page's own joined path. */
  function Rewritten(rel: (string, string) -> string, baseURL: Url, baseDir: string, target: Url): string {
    rel(Dir(Join2(baseDir, baseURL.path)), Join2(baseDir, target.path))
  }

  /** The attribute at `i` kept its value, or it is named `name`, it resolved to the base URL's
      host, and its value is now the rewritten reference. */
  ghost predicate AttrOutcome(resolve: (Url, string) -> Option<Url>, rel: (string, string) -> string,
                              n: Node, attrs: seq<Attribute>, name: string, baseURL: Url, baseDir: string, i: int)
    requires 0 <= i < |n.attrs| && |attrs| == |n.attrs|
  {
    || attrs[i] == n.attrs[i]
    || (&& n.attrs[i].key == name
        && var target := resolve(baseURL, n.attrs[i].val);
        && target.Some? && target.value.host == baseURL.host
        && attrs[i] == Attribute(n.attrs[i].key, Rewritten(rel, baseURL, baseDir, target.value)))
  }

  ghost predicate AttrsOutcome(resolve: (Url, string) -> Option<Url>, rel: (string, string) -> string,
                               n: Node, attrs: seq<Attribute>, name: string, baseURL: Url, baseDir: string)
  {
    && |attrs| == |n.attrs|
    && (forall k :: 0 <= k < |attrs| ==> attrs[k].key == n.attrs[k].key)
    && (forall k :: 0 <= k < |attrs| ==> AttrOutcome(resolve, rel, n, attrs, name, baseURL, baseDir, k))
  }

  lemma {:induction false} AttrsOutcomeStep(resolve: (Url, string) -> Option<Url>, rel: (string, string) -> string,
                         n: Node, attrs: seq<Attribute>, name: string, baseURL: Url, baseDir: string, i: int)
    requires AttrsOutcome(resolve, rel, n, attrs, name, baseURL, baseDir)
    requires 0 <= i < |attrs| && attrs[i] == n.attrs[i] && attrs[i].key == name
    requires var t := resolve(baseURL, attrs[i].val); t.Some? && t.value.host == baseURL.host
    ensures AttrsOutcome(resolve, rel, n,
      attrs[i := Attribute(name, Rewritten(rel, baseURL, baseDir, resolve(baseURL, attrs[i].val).value))],
      name, baseURL, baseDir)
  {
    var attrs' := attrs[i := Attribute(name, Rewritten(rel, baseURL, baseDir, resolve(baseURL, attrs[i].val).value))];
    forall k | 0 <= k < |attrs'| ensures AttrOutcome(resolve, rel, n, attrs', name, baseURL, baseDir, k) {
      if k != i {
        assert AttrOutcome(resolve, rel, n, attrs, name, baseURL, baseDir, k);
      }
    }
  }

  /** An attribute named `name` whose reference does not parse or leads to another host. */
  ghost predicate Leaves(resolve: (Url, string) -> Option<Url>, a: Attribute, name: string, baseURL: Url) {
    a.key == name && (resolve(baseURL, a.val).None? || resolve(baseURL, a.val).value.host != baseURL.host)
  }

  /** The attribute loop has passed the first `i` attributes: none of them leaves the host,
      those named `name` are rewritten, and the others are as they were. */
  ghost predicate FollowedUpTo(resolve: (Url, string) -> Option<Url>, rel: (string, string) -> string,
                               n: Node, attrs: seq<Attribute>, name: string, baseURL: Url, baseDir: string, i: int)
  {
    && 0 <= i <= |attrs| == |n.attrs|
    && (forall k :: i <= k < |attrs| ==> attrs[k] == n.attrs[k])
    && (forall k :: 0 <= k < i ==> !Leaves(resolve, n.attrs[k], name, baseURL))
    && (forall k :: 0 <= k < i && n.attrs[k].key == name ==>
          attrs[k] == Attribute(name, Rewritten(rel, baseURL, baseDir, resolve(baseURL, n.attrs[k].val).value)))
  }

  /** The attribute loop of downloadResources from attribute `i` on, over the attribute list
      as it stands: the outcome, the attributes afterwards, and whether the node ended there.
      An attribute named `name` whose reference does not parse is an error, one on another host
      ends the node without error, and one on the page's host is rewritten. */
  function FollowFrom(resolve: (Url, string) -> Option<Url>, rel: (string, string) -> string,
                      attrs: seq<Attribute>, name: string, baseURL: Url, baseDir: string, i: nat)
    : (Result<(), MirrorError>, seq<Attribute>, bool)
    requires i <= |attrs|
    decreases |attrs| - i
  {
    if i == |attrs| then (Ok(()), attrs, false)
    else if attrs[i].key != name then FollowFrom(resolve, rel, attrs, name, baseURL, baseDir, i + 1)
    else
      match resolve(baseURL, attrs[i].val)
      case None => (Err(BadReference), attrs, true)
      case Some(target) =>
        if target.host != baseURL.host then (Ok(()), attrs, true)
        else FollowFrom(resolve, rel, attrs[i := Attribute(name, Rewritten(rel, baseURL, baseDir, target))],
                        name, baseURL, baseDir, i + 1)
  }

  /** downloadResources on a tree, as a value: the outcome and the rewritten tree. A pruned
      link is left alone; a followed tag has its attributes followed, and a stop there skips
      its children; the children are then mirrored in sibling order up to the first error. */
  function Mirrored(resolve: (Url, string) -> Option<Url>, rel: (string, string) -> string,
                    n: Node, baseURL: Url, baseDir: string): (Result<(), MirrorError>, Node)
    decreases n, 1
  {
    match Policy(n)
    case Prune => (Ok(()), n)
    case Recurse =>
      var (r, cs) := MirroredChildren(resolve, rel, n, n.children, 0, baseURL, baseDir);
      (r, n.(children := cs))
    case Follow(name) =>
      var (r, attrs, stop) := FollowFrom(resolve, rel, n.attrs, name, baseURL, baseDir, 0);
      if r.Err? || stop then (r, n.(attrs := attrs))
      else
        var (r', cs) := MirroredChildren(resolve, rel, n, n.children, 0, baseURL, baseDir);
        (r', Node(n.kind, n.data, attrs, cs))
  }

  /** The loop over the children of `n` from child `i` on, where `cs` holds the children as
      they stand: each is replaced by its mirrored tree, and the first error ends the loop. */
  function MirroredChildren(resolve: (Url, string) -> Option<Url>, rel: (string, string) -> string,
                            n: Node, cs: seq<Node>, i: nat, baseURL: Url, baseDir: string)
    : (Result<(), MirrorError>, seq<Node>)
    requires i <= |cs| == |n.children|
    decreases n, 0, |cs| - i
  {
    if i == |cs| then (Ok(()), cs)
    else
      var (r, c) := Mirrored(resolve, rel, n.children[i], baseURL, baseDir);
      if r.Err? then (r, cs[i := c])
      else MirroredChildren(resolve, rel, n, cs[i := c], i + 1, baseURL, baseDir)
  }

  /** Attribute `k` is the first one named `name` that does not parse or leaves the host. */
  ghost predicate FirstLeaving(resolve: (Url, string) -> Option<Url>, attrs: seq<Attribute>, name: string, baseURL: Url, k: int) {
    && 0 <= k < |attrs|
    && Leaves(resolve, attrs[k], name, baseURL)
    && forall j :: 0 <= j < k ==> !Leaves(resolve, attrs[j], name, baseURL)
  }

  /** The attribute loop stopped at attribute `k`: with an error exactly when its reference
      does not parse, and with the attributes from `k` on untouched. */
  ghost predicate StoppedAt(resolve: (Url, string) -> Option<Url>, n: Node, a: seq<Attribute>, name: string,
                            baseURL: Url, r: Result<(), MirrorError>, k: int)
  {
    && FirstLeaving(resolve, n.attrs, name, baseURL, k)
    && |a| == |n.attrs|
    && r == (if resolve(baseURL, n.attrs[k].val).None? then Err(BadReference) else Ok(()))
    && forall j :: k <= j < |a| ==> a[j] == n.attrs[j]
  }

  lemma {:induction false} FollowFromFacts(resolve: (Url, string) -> Option<Url>, rel: (string, string) -> string,
                                           n: Node, attrs: seq<Attribute>, name: string, baseURL: Url, baseDir: string, i: nat)
    requires FollowedUpTo(resolve, rel, n, attrs, name, baseURL, baseDir, i)
    requires AttrsOutcome(resolve, rel, n, attrs, name, baseURL, baseDir)
    ensures var res := FollowFrom(resolve, rel, attrs, name, baseURL, baseDir, i);
      && AttrsOutcome(resolve, rel, n, res.1, name, baseURL, baseDir)
      && (res.0.Err? ==> res.2)
      && (!res.2 ==> FollowedUpTo(resolve, rel, n, res.1, name, baseURL, baseDir, |res.1|))
      && (res.2 ==> exists k :: i <= k < |res.1| && StoppedAt(resolve, n, res.1, name, baseURL, res.0, k))
    decreases |attrs| - i
  {
    if i < |attrs| {
      if attrs[i].key != name {
        assert FollowedUpTo(resolve, rel, n, attrs, name, baseURL, baseDir, i + 1);
        FollowFromFacts(resolve, rel, n, attrs, name, baseURL, baseDir, i + 1);
      } else {
        var t := resolve(baseURL, attrs[i].val);
        if t.None? || t.value.host != baseURL.host {
          StopFacts(resolve, rel, n, attrs, name, baseURL, baseDir, i);
        } else {
          var attrs' := attrs[i := Attribute(name, Rewritten(rel, baseURL, baseDir, t.value))];
          AttrsOutcomeStep(resolve, rel, n, attrs, name, baseURL, baseDir, i);
          assert FollowedUpTo(resolve, rel, n, attrs', name, baseURL, baseDir, i + 1);
          FollowFromFacts(resolve, rel, n, attrs', name, baseURL, baseDir, i + 1);
        }
      }
    }
  }

  lemma {:induction false} StopFacts(resolve: (Url, string) -> Option<Url>, rel: (string, string) -> string,
                                     n: Node, attrs: seq<Attribute>, name: string, baseURL: Url, baseDir: string, i: nat)
    requires FollowedUpTo(resolve, rel, n, attrs, name, baseURL, baseDir, i) && i < |attrs|
    requires Leaves(resolve, attrs[i], name, baseURL)
    ensures var (r, a, stop) := FollowFrom(resolve, rel, attrs, name, baseURL, baseDir, i);
      a == attrs && stop && StoppedAt(resolve, n, a, name, baseURL, r, i)
  {
    assert attrs[i] == n.attrs[i];
  }

  /** The attribute loop over a node: each attribute is unchanged or rewritten; it stops
      exactly when a named attribute does not parse or leaves the host, and then at the first
      such one, with an error exactly when that reference does not parse and with the later
      attributes untouched; otherwise it succeeds and every named attribute is rewritten
      relative to the directory of the page. */
  lemma {:induction false} FollowFromSpec(resolve: (Url, string) -> Option<Url>, rel: (string, string) -> string,
                                          n: Node, name: string, baseURL: Url, baseDir: string)
    ensures var (r, a, stop) := FollowFrom(resolve, rel, n.attrs, name, baseURL, baseDir, 0);
      && AttrsOutcome(resolve, rel, n, a, name, baseURL, baseDir)
      && (stop <==> exists k :: 0 <= k < |n.attrs| && Leaves(resolve, n.attrs[k], name, baseURL))
      && (stop ==> exists k :: StoppedAt(resolve, n, a, name, baseURL, r, k))
      && (!stop ==> r.Ok? && forall k :: 0 <= k < |n.attrs| && n.attrs[k].key == name ==>
            a[k] == Attribute(name, Rewritten(rel, baseURL, baseDir, resolve(baseURL, n.attrs[k].val).value)))
  {
    assert AttrsOutcome(resolve, rel, n, n.attrs, name, baseURL, baseDir) by {
      forall k | 0 <= k < |n.attrs| ensures AttrOutcome(resolve, rel, n, n.attrs, name, baseURL, baseDir, k) {
      }
    }
    FollowFromFacts(resolve, rel, n, n.attrs, name, baseURL, baseDir, 0);
    var res := FollowFrom(resolve, rel, n.attrs, name, baseURL, baseDir, 0);
    var (r, a, stop) := res;
    if stop {
      var k :| 0 <= k < |a| && StoppedAt(resolve, n, a, name, baseURL, r, k);
      assert Leaves(resolve, n.attrs[k], name, baseURL);
    } else {
      assert FollowedUpTo(resolve, rel, n, a, name, baseURL, baseDir, |a|);
      assert r.Ok?;
    }
  }

  /** The children loop stopped at child `j` with the error `r`: the children before it were
      mirrored without error, `j` was mirrored with that error, and the later ones are as
      they were. */
  ghost predicate ChildrenStoppedAt(resolve: (Url, string) -> Option<Url>, rel: (string, string) -> string,
                                    n: Node, out: seq<Node>, r: Result<(), MirrorError>, j: int, baseURL: Url, baseDir: string)
  {
    && 0 <= j < |out| == |n.children|
    && (forall k :: 0 <= k < j ==>
          Mirrored(resolve, rel, n.children[k], baseURL, baseDir).0.Ok? && out[k] == Mirrored(resolve, rel, n.children[k], baseURL, baseDir).1)
    && r.Err? && (r, out[j]) == Mirrored(resolve, rel, n.children[j], baseURL, baseDir)
    && (forall k :: j < k < |out| ==> out[k] == n.children[k])
  }

  /** The children of `n` before `i` are mirrored without error and those from `i` on are as
      they were. */
  ghost predicate ChildrenDoneUpTo(resolve: (Url, string) -> Option<Url>, rel: (string, string) -> string,
                                   n: Node, cs: seq<Node>, i: int, baseURL: Url, baseDir: string)
  {
    && 0 <= i <= |cs| == |n.children|
    && (forall k :: 0 <= k < i ==>
          Mirrored(resolve, rel, n.children[k], baseURL, baseDir).0.Ok? && cs[k] == Mirrored(resolve, rel, n.children[k], baseURL, baseDir).1)
    && (forall k :: i <= k < |cs| ==> cs[k] == n.children[k])
  }

  lemma {:induction false} ChildrenFrom(resolve: (Url, string) -> Option<Url>, rel: (string, string) -> string,
                                        n: Node, cs: seq<Node>, i: nat, baseURL: Url, baseDir: string)
    requires ChildrenDoneUpTo(resolve, rel, n, cs, i, baseURL, baseDir)
    ensures var (r, out) := MirroredChildren(resolve, rel, n, cs, i, baseURL, baseDir);
      && (r.Ok? ==> ChildrenDoneUpTo(resolve, rel, n, out, |out|, baseURL, baseDir))
      && (r.Err? ==> exists j :: i <= j && ChildrenStoppedAt(resolve, rel, n, out, r, j, baseURL, baseDir))
    decreases |cs| - i
  {
    if i < |cs| {
      var (r, c) := Mirrored(resolve, rel, n.children[i], baseURL, baseDir);
      if r.Err? {
        assert ChildrenStoppedAt(resolve, rel, n, cs[i := c], r, i, baseURL, baseDir);
      } else {
        assert ChildrenDoneUpTo(resolve, rel, n, cs[i := c], i + 1, baseURL, baseDir);
        ChildrenFrom(resolve, rel, n, cs[i := c], i + 1, baseURL, baseDir);
      }
    }
  }

  /** The loop over the children: either every child is replaced by its mirrored tree and
      none failed, or the first child whose mirroring failed gives the error, the children
      before it are mirrored and those after it are not visited. */
  lemma {:induction false} ChildrenOutcome(resolve: (Url, string) -> Option<Url>, rel: (string, string) -> string,
                                           n: Node, baseURL: Url, baseDir: string)
    ensures var (r, out) := MirroredChildren(resolve, rel, n, n.children, 0, baseURL, baseDir);
      && |out| == |n.children|
      && (r.Ok? ==> forall k :: 0 <= k < |out| ==>
            Mirrored(resolve, rel, n.children[k], baseURL, baseDir).0.Ok? && out[k] == Mirrored(resolve, rel, n.children[k], baseURL, baseDir).1)
      && (r.Err? ==> exists j :: ChildrenStoppedAt(resolve, rel, n, out, r, j, baseURL, baseDir))
  {
    ChildrenFrom(resolve, rel, n, n.children, 0, baseURL, baseDir);
    var (r, out) := MirroredChildren(resolve, rel, n, n.children, 0, baseURL, baseDir);
    if r.Ok? {
      assert ChildrenDoneUpTo(resolve, rel, n, out, |out|, baseURL, baseDir);
    } else {
      var j :| 0 <= j && ChildrenStoppedAt(resolve, rel, n, out, r, j, baseURL, baseDir);
    }
  }

  /** What downloadResources does to one node: a pruned link is returned as it is; any other
      node keeps its type and tag; a followed tag's attributes are those of the attribute loop
      and other tags keep theirs; a stop in the attribute loop leaves the children as they
      were and gives the loop's outcome; otherwise the outcome is that of the children loop. */
  lemma {:induction false} MirroredMeans(resolve: (Url, string) -> Option<Url>, rel: (string, string) -> string,
                                         n: Node, baseURL: Url, baseDir: string)
    ensures var (r, m) := Mirrored(resolve, rel, n, baseURL, baseDir);
      && (Policy(n) == Prune ==> r == Ok(()) && m == n)
      && m.kind == n.kind && m.data == n.data
      && (!Policy(n).Follow? ==> m.attrs == n.attrs)
      && (Policy(n).Follow? ==> AttrsOutcome(resolve, rel, n, m.attrs, Policy(n).attrName, baseURL, baseDir))
      && (Policy(n).Follow? && (exists k :: 0 <= k < |n.attrs| && Leaves(resolve, n.attrs[k], Policy(n).attrName, baseURL)) ==>
            m.children == n.children && exists k :: StoppedAt(resolve, n, m.attrs, Policy(n).attrName, baseURL, r, k))
      && (Policy(n) == Recurse || (Policy(n).Follow? && forall k :: 0 <= k < |n.attrs| ==> !Leaves(resolve, n.attrs[k], Policy(n).attrName, baseURL)) ==>
            (r, m.children) == MirroredChildren(resolve, rel, n, n.children, 0, baseURL, baseDir))
  {
    if Policy(n).Follow? {
      FollowFromSpec(resolve, rel, n, Policy(n).attrName, baseURL, baseDir);
    }
  }

  /** Mirroring keeps the skeleton of the tree, and its only error is a bad reference. */
  lemma {:induction false} MirroredShape(resolve: (Url, string) -> Option<Url>, rel: (string, string) -> string,
                                         n: Node, baseURL: Url, baseDir: string)
    ensures var (r, m) := Mirrored(resolve, rel, n, baseURL, baseDir);
      Skeleton(m) == Skeleton(n) && (r.Err? ==> r == Err(BadReference))
    decreases n, 1
  {
    var (r, m) := Mirrored(resolve, rel, n, baseURL, baseDir);
    if Policy(n).Follow? {
      FollowFromSpec(resolve, rel, n, Policy(n).attrName, baseURL, baseDir);
      KeysSame(m.attrs, n.attrs);
    }
    if !Policy(n).Prune? {
      ChildrenShape(resolve, rel, n, n.children, 0, baseURL, baseDir);
    }
  }

  lemma {:induction false} ChildrenShape(resolve: (Url, string) -> Option<Url>, rel: (string, string) -> string,
                                         n: Node, cs: seq<Node>, i: nat, baseURL: Url, baseDir: string)
    requires i <= |cs| == |n.children| && Skeletons(cs) == Skeletons(n.children)
    requires forall k :: i <= k < |cs| ==> cs[k] == n.children[k]
    ensures var (r, out) := MirroredChildren(resolve, rel, n, cs, i, baseURL, baseDir);
      Skeletons(out) == Skeletons(n.children) && (r.Err? ==> r == Err(BadReference))
    decreases n, 0, |cs| - i
  {
    if i < |cs| {
      MirroredShape(resolve, rel, n.children[i], baseURL, baseDir);
      var c := Mirrored(resolve, rel, n.children[i], baseURL, baseDir).1;
      SkeletonsUpdate(cs, i, c);
      if Mirrored(resolve, rel, n.children[i], baseURL, baseDir).0.Ok? {
        ChildrenShape(resolve, rel, n, cs[i := c], i + 1, baseURL, baseDir);
      }
    }
  }

  /** An image below the root is mirrored too: in a document whose body holds one `img`
      with a same-host `src`, that reference is rewritten and nothing else changes. */
  lemma {:induction false} NestedImageRewritten(resolve: (Url, string) -> Option<Url>, rel: (string, string) -> string,
                                                baseURL: Url, baseDir: string, src: string, target: Url)
    requires resolve(baseURL, src) == Some(target) && target.host == baseURL.host
    ensures var img := Node(ElementNode, "img", [Attribute("src", src)], []);
      var img' := img.(attrs := [Attribute("src", Rewritten(rel, baseURL, baseDir, target))]);
      Mirrored(resolve, rel, Node(DocumentNode, "", [], [Node(ElementNode, "body", [], [img])]), baseURL, baseDir)
        == (Ok(()), Node(DocumentNode, "", [], [Node(ElementNode, "body", [], [img'])]))
  {
    var img := Node(ElementNode, "img", [Attribute("src", src)], []);
    var img' := img.(attrs := [Attribute("src", Rewritten(rel, baseURL, baseDir, target))]);
    var body := Node(ElementNode, "body", [], [img]);
    var doc := Node(DocumentNode, "", [], [body]);
    assert Policy(img) == Follow("src");
    assert img.attrs[0 := Attribute("src", Rewritten(rel, baseURL, baseDir, target))] == img'.attrs;
    assert FollowFrom(resolve, rel, img'.attrs, "src", baseURL, baseDir, 1) == (Ok(()), img'.attrs, false);
    assert FollowFrom(resolve, rel, img.attrs, "src", baseURL, baseDir, 0) == (Ok(()), img'.attrs, false);
    assert Mirrored(resolve, rel, img, baseURL, baseDir) == (Ok(()), img');
    assert Policy(body) == Recurse by {
      assert body.data != "img" && body.data != "script" && body.data != "link" && body.data != "a";
    }
    assert body.children[0 := img'] == [img'];
    assert MirroredChildren(resolve, rel, body, [img'], 1, baseURL, baseDir) == (Ok(()), [img']);
    assert MirroredChildren(resolve, rel, body, body.children, 0, baseURL, baseDir) == (Ok(()), [img']);
    assert Mirrored(resolve, rel, body, baseURL, baseDir) == (Ok(()), body.(children := [img']));
    var body' := body.(children := [img']);
    assert doc.children[0 := body'] == [body'];
    assert MirroredChildren(resolve, rel, doc, [body'], 1, baseURL, baseDir) == (Ok(()), [body']);
    assert MirroredChildren(resolve, rel, doc, doc.children, 0, baseURL, baseDir) == (Ok(()), [body']);
  }

  /** What a file holds after `c` is written from its start through a handle opened before
      the file came to hold `f`: `c`, followed by the part of `f` beyond it. This is what
      html.Render leaves when a nested page saved under the same local path has written
      there since the outer os.Create. */
  function Overlay(f: string, c: string): (r: string)
    ensures |r| == if |c| < |f| then |f| else |c|
    ensures r[..|c|] == c
    ensures |c| < |f| ==> r[|c|..] == f[|c|..]
  {
    if |c| < |f| then c + f[|c|..] else c
  }

  /** The overlay happens: writing "ab" over "xyz" leaves "abz". */
  lemma {:induction false} OverlayExample()
    ensures Overlay("xyz", "ab") == "abz"
  {
    assert "xyz"[2..] == "z";
    assert "ab" + "z" == "abz";
  }

  /** What downloadPage returns for a fetched page, and on success what its file holds: an
      HTML page is parsed, mirrored and rendered; any other body is copied as it came. The
      contents given with an error are not used. */
  function PageOutcome(parse: string -> Option<Node>, resolve: (Url, string) -> Option<Url>,
                       rel: (string, string) -> string, render: Node -> string,
                       u: Url, baseDir: string, localPath: string, body: string): (Result<(), MirrorError>, string)
  {
    if !IsHtml(localPath) then (Ok(()), body)
    else
      match parse(body)
      case None => (Err(ParseFailed), "")
      case Some(doc) =>
        var (r, tree) := Mirrored(resolve, rel, doc, u, baseDir);
        if r.Err? then (r, "") else (Ok(()), render(tree))
  }

  /** The URLs the mirror has requested are exactly those marked visited, each requested
      once: the last request is visited and the earlier ones are the rest (FetchedOnceMeans). */
  ghost predicate FetchedOnce(fetches: seq<Url>, visited: set<string>)
    decreases |fetches|
  {
    if fetches == [] then visited == {}
    else
      var last := fetches[|fetches| - 1].text;
      last in visited && FetchedOnce(fetches[..|fetches| - 1], visited - {last})
  }

  /** Each URL string was requested once, and the visited ones are exactly those requested. */
  lemma {:induction false} FetchedOnceMeans(fetches: seq<Url>, visited: set<string>)
    requires FetchedOnce(fetches, visited)
    ensures forall i, j :: 0 <= i < j < |fetches| ==> fetches[i].text != fetches[j].text
    ensures forall k :: 0 <= k < |fetches| ==> fetches[k].text in visited
    ensures forall x :: x in visited ==> exists k :: 0 <= k < |fetches| && fetches[k].text == x
    decreases |fetches|
  {
    if fetches != [] {
      var init := fetches[..|fetches| - 1];
      var last := fetches[|fetches| - 1].text;
      FetchedOnceMeans(init, visited - {last});
      forall i, j | 0 <= i < j < |fetches| ensures fetches[i].text != fetches[j].text {
        assert fetches[i] == init[i];
        if j < |fetches| - 1 {
          assert fetches[j] == init[j];
        }
      }
      forall k | 0 <= k < |fetches| ensures fetches[k].text in visited {
        if k < |fetches| - 1 {
          assert fetches[k] == init[k];
        }
      }
      forall x | x in visited ensures exists k :: 0 <= k < |fetches| && fetches[k].text == x {
        if x == last {
          assert fetches[|fetches| - 1].text == x;
        } else {
          assert x in visited - {last};
          var k :| 0 <= k < |init| && init[k].text == x;
          assert fetches[k] == init[k];
        }
      }
    }
  }

  lemma {:induction false} MarkFetched(fetches: seq<Url>, visited: set<string>, u: Url)
    requires FetchedOnce(fetches, visited) && u.text !in visited
    ensures FetchedOnce(fetches + [u], visited + {u.text})
  {
    var f := fetches + [u];
    assert f[..|f| - 1] == fetches;
    assert (visited + {u.text}) - {u.text} == visited;
  }

  /** Every URL requested from position `from` on is on `host`. */
  ghost predicate FetchedOn(fetches: seq<Url>, from: nat, host: string) {
    forall k :: from <= k < |fetches| ==> fetches[k].host == host
  }

  lemma {:induction false} FetchedOnExtend(a: seq<Url>, b: seq<Url>, c: seq<Url>, host: string)
    requires a <= b <= c && FetchedOn(b, |a|, host) && FetchedOn(c, |b|, host)
    ensures FetchedOn(c, |a|, host)
  {
    forall k | |a| <= k < |c| ensures c[k].host == host {
      if k < |b| {
        assert c[k] == b[k];
      }
    }
  }

  /** Every file that existed still exists. */
  ghost predicate KeepsPaths(files0: map<string, string>, files: map<string, string>) {
    forall p :: p in files0 ==> p in files
  }

  /** Files change only through pages fetched: a call that requested nothing wrote nothing. */
  ghost predicate Quiet(fetches0: seq<Url>, fetches: seq<Url>, files0: map<string, string>, files: map<string, string>) {
    |fetches| == |fetches0| ==> files == files0
  }

  lemma {:induction false} UnvisitedShrinks(keys: set<string>, visited: set<string>, x: string)
    requires x in keys && x !in visited
    ensures |keys - (visited + {x})| < |keys - visited|
  {
    assert keys - visited == (keys - (visited + {x})) + {x};
  }

  lemma {:induction false} SubsetCard<T>(a: set<T>, b: set<T>)
    requires a <= b
    ensures |a| <= |b|
  {
    assert b == a + (b - a);
  }

  class Mirror {
    /** The web: the body served for each URL string; a URL without one makes http.Get fail. */
    const web: map<string, string>
    /** baseURL.Parse(ref): the resolved URL, or None when the reference does not parse. */
    const resolve: (Url, string) -> Option<Url>
    /** html.Parse of a body. */
    const parse: string -> Option<Node>
    /** html.Render of a tree. */
    const render: Node -> string
    /** filepath.Rel(base, target). */
    const rel: (string, string) -> string

    var visited: set<string>
    /** The URLs passed to http.Get, in order. */
    var fetches: seq<Url>
    /** The files written, by local path. */
    var files: map<string, string>
    /** The "Downloaded <url>" lines printed. */
    var log: seq<string>

    ghost predicate Valid()
      reads this
    {
      FetchedOnce(fetches, visited)
    }

    /** The mirror has only added to what it had visited, requested and printed. */
    ghost predicate Extends(visited0: set<string>, fetches0: seq<Url>, log0: seq<string>)
      reads this
    {
      visited0 <= visited && fetches0 <= fetches && log0 <= log
    }

    /** main: the visited map starts empty. */
    constructor (web: map<string, string>, resolve: (Url, string) -> Option<Url>,
                 parse: string -> Option<Node>, render: Node -> string, rel: (string, string) -> string)
      ensures Valid()
      ensures this.web == web && this.resolve == resolve && this.parse == parse
      ensures this.render == render && this.rel == rel
      ensures visited == {} && fetches == [] && files == map[] && log == []
    {
      this.web, this.resolve, this.parse, this.render, this.rel := web, resolve, parse, render, rel;
      visited, fetches, files, log := {}, [], map[], [];
    }

    /** The page `u`, fetched with `body`, is saved under `localPath`: the outcome is the one
        PageOutcome gives, the file exists, and on success it holds PageOutcome's contents
        written over `left`, what the mirroring of its resources had left in that file, and
        the page was the last one reported. */
    ghost predicate Saved(u: Url, baseDir: string, localPath: string, body: string, r: Result<(), MirrorError>, left: string)
      reads this
    {
      var (outcome, contents) := PageOutcome(parse, resolve, rel, render, u, baseDir, localPath, body);
      && r == outcome
      && localPath in files
      && (r.Ok? ==> files[localPath] == Overlay(left, contents) && log != [] && log[|log| - 1] == Downloaded(u))
    }

    ghost function Unvisited(): nat
      reads this
    {
      |web.Keys - visited|
    }

    /** downloadPage: a visited URL returns at once; a new one is marked visited and requested;
        a body that arrives is saved as PageOutcome says. Every URL requested on the way is on
        the host of `u`. */
    method DownloadPage(u: Url, baseDir: string) returns (r: Result<(), MirrorError>, ghost left: string)
      requires Valid()
      modifies this
      decreases Unvisited(), 0, 0
      ensures Valid() && Extends(old(visited), old(fetches), old(log)) && u.text in visited
      ensures FetchedOn(fetches, |old(fetches)|, u.host) && KeepsPaths(old(files), files)
      ensures u.text in old(visited) ==>
        r == Ok(()) && visited == old(visited) && fetches == old(fetches) && files == old(files) && log == old(log)
      ensures u.text !in old(visited) ==> |fetches| > |old(fetches)| && fetches[|old(fetches)|] == u
      ensures u.text !in old(visited) && u.text !in web ==>
        r == Err(FetchFailed) && visited == old(visited) + {u.text} && fetches == old(fetches) + [u]
        && files == old(files) && log == old(log)
      ensures u.text !in old(visited) && r.Ok? ==> u.text in web
      ensures u.text !in old(visited) && u.text in web ==> Saved(u, baseDir, LocalPath(baseDir, u.path), web[u.text], r, left)
    {
      left := "";
      if u.text in visited {
        return Ok(()), left;
      }
      MarkFetched(fetches, visited, u);
      if u.text in web {
        UnvisitedShrinks(web.Keys, visited, u.text);
      }
      visited := visited + {u.text};
      fetches := fetches + [u];
      if u.text !in web {
        return Err(FetchFailed), left;
      }
      ghost var before := fetches;
      r, left := Save(u, baseDir, LocalPath(baseDir, u.path), web[u.text]);
      FetchedOnExtend(old(fetches), before, fetches, u.host);
    }

    /** The rest of downloadPage once the body is fetched: the file is created under the local
        path and filled with the rendered page or with the body as it came; the page is then
        reported. */
    method Save(u: Url, baseDir: string, localPath: string, body: string) returns (r: Result<(), MirrorError>, ghost left: string)
      requires Valid()
      modifies this
      decreases Unvisited(), 3
      ensures Valid() && Extends(old(visited), old(fetches), old(log))
      ensures FetchedOn(fetches, |old(fetches)|, u.host) && KeepsPaths(old(files), files)
      ensures Saved(u, baseDir, localPath, body, r, left)
      ensures (!IsHtml(localPath) || |fetches| == |old(fetches)|) ==> left == ""
      ensures !IsHtml(localPath) ==>
        visited == old(visited) && fetches == old(fetches)
        && files == old(files)[localPath := body] && log == old(log) + [Downloaded(u)]
      ensures IsHtml(localPath) && parse(body).None? ==>
        visited == old(visited) && fetches == old(fetches) && files == old(files)[localPath := ""] && log == old(log)
    {
      files := files[localPath := ""];
      left := "";
      if IsHtml(localPath) {
        r, left := SaveHtml(u, baseDir, localPath, body);
        if r.Err? {
          return r, left;
        }
      } else {
        files := files[localPath := body];
      }
      log := log + [Downloaded(u)];
      return Ok(()), left;
    }

    /** The HTML branch of downloadPage: parse, mirror the resources, render into the file. */
    method SaveHtml(u: Url, baseDir: string, localPath: string, body: string) returns (r: Result<(), MirrorError>, ghost left: string)
      requires Valid() && IsHtml(localPath) && localPath in files
      modifies this
      decreases Unvisited(), 2
      ensures Valid() && Extends(old(visited), old(fetches), old(log))
      ensures FetchedOn(fetches, |old(fetches)|, u.host) && KeepsPaths(old(files), files)
      ensures r == PageOutcome(parse, resolve, rel, render, u, baseDir, localPath, body).0
      ensures localPath in files
      ensures r.Ok? ==> files[localPath] == Overlay(left, PageOutcome(parse, resolve, rel, render, u, baseDir, localPath, body).1)
      ensures |fetches| == |old(fetches)| ==> left == old(files)[localPath]
      ensures parse(body).None? ==>
        visited == old(visited) && fetches == old(fetches) && files == old(files) && log == old(log)
    {
      left := files[localPath];
      var doc := parse(body);
      if doc.None? {
        return Err(ParseFailed), left;
      }
      var res, rewritten := DownloadResources(doc.value, u, baseDir);
      left := files[localPath];
      if res.Err? {
        return res, left;
      }
      files := files[localPath := Overlay(files[localPath], render(rewritten))];
      return Ok(()), left;
    }

    /** downloadResources: the rewritten tree is returned as `n'`. Every URL requested on the
        way is on the host of `baseURL`, and a pruned link requests nothing. */
    method DownloadResources(n: Node, baseURL: Url, baseDir: string) returns (r: Result<(), MirrorError>, n': Node)
      requires Valid()
      modifies this
      decreases Unvisited(), 1, n, 3
      ensures Valid() && Extends(old(visited), old(fetches), old(log))
      ensures FetchedOn(fetches, |old(fetches)|, baseURL.host)
      ensures KeepsPaths(old(files), files) && Quiet(old(fetches), fetches, old(files), files)
      ensures (r, n') == Mirrored(resolve, rel, n, baseURL, baseDir)
      ensures Policy(n) == Prune ==> fetches == old(fetches) && files == old(files)
    {
      var action := Policy(n);
      if action.Prune? {
        return Ok(()), n;
      }
      var attrs := n.attrs;
      var stop := false;
      ghost var before := fetches;
      if action.Follow? {
        r, attrs, stop := FollowAttrs(n, action.attrName, baseURL, baseDir);
        if r.Err? || stop {
          return r, n.(attrs := attrs);
        }
      }
      var children;
      ghost var middle := fetches;
      SubsetCard(web.Keys - visited, web.Keys - old(visited));
      r, children := VisitChildren(n, baseURL, baseDir);
      FetchedOnExtend(before, middle, fetches, baseURL.host);
      n' := Node(n.kind, n.data, attrs, children);
    }

    /** The attribute loop: the outcome is FollowFrom's; every named attribute passed on the
        page's host has had its page mirrored. */
    method FollowAttrs(n: Node, name: string, baseURL: Url, baseDir: string)
      returns (r: Result<(), MirrorError>, attrs: seq<Attribute>, stop: bool)
      requires Valid()
      modifies this
      decreases Unvisited(), 1, n, 2
      ensures Valid() && Extends(old(visited), old(fetches), old(log))
      ensures FetchedOn(fetches, |old(fetches)|, baseURL.host)
      ensures KeepsPaths(old(files), files) && Quiet(old(fetches), fetches, old(files), files)
      ensures (r, attrs, stop) == FollowFrom(resolve, rel, n.attrs, name, baseURL, baseDir, 0)
      ensures !stop ==> forall k :: 0 <= k < |n.attrs| && n.attrs[k].key == name ==>
        resolve(baseURL, n.attrs[k].val).Some? && resolve(baseURL, n.attrs[k].val).value.text in visited
    {
      attrs := n.attrs;
      var i := 0;
      while i < |attrs|
        invariant 0 <= i <= |attrs| == |n.attrs|
        invariant Valid() && Extends(old(visited), old(fetches), old(log))
        invariant FetchedOn(fetches, |old(fetches)|, baseURL.host) && KeepsPaths(old(files), files) && Quiet(old(fetches), fetches, old(files), files)
        invariant FollowFrom(resolve, rel, n.attrs, name, baseURL, baseDir, 0) == FollowFrom(resolve, rel, attrs, name, baseURL, baseDir, i)
        invariant forall k :: i <= k < |attrs| ==> attrs[k] == n.attrs[k]
        invariant forall k :: 0 <= k < i && n.attrs[k].key == name ==>
          resolve(baseURL, n.attrs[k].val).Some? && resolve(baseURL, n.attrs[k].val).value.text in visited
      {
        SubsetCard(web.Keys - visited, web.Keys - old(visited));
        ghost var before := fetches;
        r, attrs, stop := FollowAttr(n, name, baseURL, baseDir, attrs, i);
        FetchedOnExtend(old(fetches), before, fetches, baseURL.host);
        if stop {
          return r, attrs, true;
        }
        i := i + 1;
      }
      return Ok(()), attrs, false;
    }

    /** One turn of the attribute loop, for the attribute at `i`: an unparsable reference is
        the error; one on another host stops the node and requests nothing; one on the page's
        host has its page mirrored and is rewritten. */
    method FollowAttr(n: Node, name: string, baseURL: Url, baseDir: string, attrs: seq<Attribute>, i: int)
      returns (r: Result<(), MirrorError>, attrs': seq<Attribute>, stop: bool)
      requires Valid() && 0 <= i < |attrs|
      modifies this
      decreases Unvisited(), 1, n, 1
      ensures Valid() && Extends(old(visited), old(fetches), old(log))
      ensures FetchedOn(fetches, |old(fetches)|, baseURL.host) && KeepsPaths(old(files), files) && Quiet(old(fetches), fetches, old(files), files)
      ensures stop <==> Leaves(resolve, attrs[i], name, baseURL)
      ensures r.Err? <==> attrs[i].key == name && resolve(baseURL, attrs[i].val).None?
      ensures stop ==> (r, attrs', stop) == FollowFrom(resolve, rel, attrs, name, baseURL, baseDir, i)
      ensures stop ==> visited == old(visited) && fetches == old(fetches) && files == old(files) && log == old(log)
      ensures !stop ==> |attrs'| == |attrs| && (forall k :: 0 <= k < |attrs| && k != i ==> attrs'[k] == attrs[k])
      ensures !stop ==> FollowFrom(resolve, rel, attrs, name, baseURL, baseDir, i) == FollowFrom(resolve, rel, attrs', name, baseURL, baseDir, i + 1)
      ensures !stop && attrs[i].key == name ==>
        resolve(baseURL, attrs[i].val).Some? && resolve(baseURL, attrs[i].val).value.text in visited
    {
      var attr := attrs[i];
      if attr.key != name {
        return Ok(()), attrs, false;
      }
      var resourceURL := resolve(baseURL, attr.val);
      if resourceURL.None? {
        return Err(BadReference), attrs, true;
      }
      if resourceURL.value.host != baseURL.host {
        return Ok(()), attrs, true;
      }
      ghost var next := attrs[i := Attribute(attr.key, Rewritten(rel, baseURL, baseDir, resourceURL.value))];
      assert FollowFrom(resolve, rel, attrs, name, baseURL, baseDir, i) == FollowFrom(resolve, rel, next, name, baseURL, baseDir, i + 1);
      var _, _ := DownloadPage(resourceURL.value, baseDir);
      attrs' := attrs[i := Attribute(attr.key, Rewritten(rel, baseURL, baseDir, resourceURL.value))];
      return Ok(()), attrs', false;
    }

    /** The loop over the children in sibling order; the first error ends it. */
    method VisitChildren(n: Node, baseURL: Url, baseDir: string) returns (r: Result<(), MirrorError>, children: seq<Node>)
      requires Valid()
      modifies this
      decreases Unvisited(), 1, n, 2
      ensures Valid() && Extends(old(visited), old(fetches), old(log))
      ensures FetchedOn(fetches, |old(fetches)|, baseURL.host) && KeepsPaths(old(files), files) && Quiet(old(fetches), fetches, old(files), files)
      ensures (r, children) == MirroredChildren(resolve, rel, n, n.children, 0, baseURL, baseDir)
    {
      children := n.children;
      var i := 0;
      while i < |children|
        invariant 0 <= i <= |children| == |n.children| && Valid() && Extends(old(visited), old(fetches), old(log))
        invariant FetchedOn(fetches, |old(fetches)|, baseURL.host) && KeepsPaths(old(files), files) && Quiet(old(fetches), fetches, old(files), files)
        invariant MirroredChildren(resolve, rel, n, n.children, 0, baseURL, baseDir)
          == MirroredChildren(resolve, rel, n, children, i, baseURL, baseDir)
        invariant forall k :: i <= k < |children| ==> children[k] == n.children[k]
      {
        SubsetCard(web.Keys - visited, web.Keys - old(visited));
        var res;
        ghost var before := fetches;
        res, children := VisitChild(n, children, i, baseURL, baseDir);
        FetchedOnExtend(old(fetches), before, fetches, baseURL.host);
        if res.Err? {
          return res, children;
        }
        i := i + 1;
      }
      return Ok(()), children;
    }

    /** One turn of the loop over the children: the child at `i` is mirrored and replaced by
        its rewritten tree. */
    method VisitChild(n: Node, children: seq<Node>, i: int, baseURL: Url, baseDir: string)
      returns (r: Result<(), MirrorError>, children': seq<Node>)
      requires Valid() && 0 <= i < |children| == |n.children| && children[i] == n.children[i]
      modifies this
      decreases Unvisited(), 1, n, 1
      ensures Valid() && Extends(old(visited), old(fetches), old(log))
      ensures FetchedOn(fetches, |old(fetches)|, baseURL.host) && KeepsPaths(old(files), files) && Quiet(old(fetches), fetches, old(files), files)
      ensures r == Mirrored(resolve, rel, children[i], baseURL, baseDir).0
      ensures children' == children[i := Mirrored(resolve, rel, children[i], baseURL, baseDir).1]
    {
      var child;
      r, child := DownloadResources(children[i], baseURL, baseDir);
      children' := children[i := child];
    }
  }
}
