/** The tree of allowed domains, walked label by label from the end of a request name. */
module DomainTrie {
  import opened Words
  import opened DnsName
  import opened DnsMessage

  /** The last dot among the first n octets. */
  function LastDotBefore(s: bytes, n: nat): (i: int)
    requires n <= |s|
    ensures -1 <= i < n && (i >= 0 ==> s[i] == DOT)
  {
    if n == 0 then -1 else if s[n - 1] == DOT then n - 1 else LastDotBefore(s, n - 1)
  }

  /** strings.LastIndexByte(s, '.') */
  function LastDot(s: bytes): (i: int)
    ensures -1 <= i < |s| && (i >= 0 ==> s[i] == DOT)
  {
    LastDotBefore(s, |s|)
  }

  predicate NoDotAfter(s: bytes, i: int)
    requires -1 <= i
  {
    forall k :: i < k < |s| ==> s[k] != DOT
  }

  /** The labels of a domain from its end. A leading dot leaves no trace. */
  function Path(s: bytes): seq<bytes>
    decreases |s|
  {
    if s == [] then []
    else if LastDot(s) < 0 then [s]
    else [s[LastDot(s) + 1..]] + Path(s[..LastDot(s)])
  }

  /** Where the j-th label from the end starts; |s| + 1 for none. */
  function Cut(s: bytes, j: nat): (c: nat)
    ensures c <= |s| + 1
  {
    if j == 0 then |s| + 1
    else if Cut(s, j - 1) == 0 then 0
    else LastDot(s[..Cut(s, j - 1) - 1]) + 1
  }

  /** The last domain stored at each path. */
  function Stored(domains: seq<bytes>): map<seq<bytes>, bytes> {
    if domains == [] then map[]
    else Stored(domains[..|domains| - 1])[Path(domains[|domains| - 1]) := domains[|domains| - 1]]
  }

  function StripDots(s: bytes): bytes {
    if s == [] then [] else StripDots(s[..|s| - 1]) + if s[|s| - 1] == DOT then [] else [s[|s| - 1]]
  }

  /** The longest of the first k prefixes of a path that carries a domain; 0 for none. */
  function Deepest(stored: map<seq<bytes>, bytes>, path: seq<bytes>, k: nat): (j: nat)
    requires k <= |path|
    ensures j <= k && (j > 0 ==> path[..j] in stored && stored[path[..j]] != [])
  {
    if k == 0 then 0
    else if path[..k] in stored && stored[path[..k]] != [] then k
    else Deepest(stored, path, k - 1)
  }

  datatype Found = NoMatch | Matched(base: bytes, labels: bytes)

  function Before(name: bytes, pos: nat): bytes
    requires pos <= |name| + 1
  {
    if pos == 0 then [] else StripDots(name[..pos - 1])
  }

  function Find(stored: map<seq<bytes>, bytes>, name: bytes): Found {
    var path := Path(name);
    var j := Deepest(stored, path, |path|);
    if j == 0 then NoMatch else Matched(stored[path[..j]], Before(name, Cut(name, j)))
  }

  // ----- the linear specification -----

  /** The domain is the name itself, or follows a dot at its end. */
  predicate Aligned(domain: bytes, name: bytes) {
    name == domain ||
    (|name| > |domain| && name[|name| - |domain|..] == domain && name[|name| - |domain| - 1] == DOT)
  }

  predicate Proper(domain: bytes) {
    domain != [] && domain[0] != DOT
  }

  predicate AllProper(domains: seq<bytes>) {
    forall d :: d in domains ==> Proper(d)
  }

  ghost predicate Longest(domains: seq<bytes>, name: bytes, base: bytes) {
    && base in domains && Aligned(base, name)
    && forall d :: d in domains && Aligned(d, name) ==> |d| <= |base|
  }

  lemma {:induction false} NoLaterDot(s: bytes, n: nat)
    requires n <= |s|
    ensures forall k :: LastDotBefore(s, n) < k < n ==> s[k] != DOT
  {
    if n > 0 { NoLaterDot(s, n - 1); }
  }

  lemma LastDotIs(s: bytes, i: int)
    requires -1 <= i < |s| && (i >= 0 ==> s[i] == DOT)
    requires NoDotAfter(s, i)
    ensures LastDot(s) == i
  {
    NoLaterDot(s, |s|);
  }

  /** The last dot of a text that ends in d. */
  lemma LastDotMoves(d: bytes, name: bytes, delta: nat)
    requires |name| == |d| + delta && name[delta..] == d
    requires delta > 0 ==> name[delta - 1] == DOT
    ensures LastDot(name) == LastDot(d) + delta
  {
    NoLaterDot(d, |d|);
    assert forall k :: delta <= k < |name| ==> name[k] == name[delta..][k - delta];
    LastDotIs(name, LastDot(d) + delta);
  }

  /** The path of a name below a domain continues the domain's path. */
  lemma {:induction false} PathBelow(x: bytes, d: bytes)
    requires Proper(d)
    ensures Path(x + [DOT] + d) == Path(d) + Path(x)
    decreases |d|
  {
    hide Path, LastDot, NoDotAfter, Last, Init;
    PathHead(x + [DOT] + d);
    PathHead(d);
    SplitAtDot(d);
    LastOfBelow(x, d);
    if LastDot(d) < 0 {
      PathOfNothing();
    } else {
      PathBelow(x, Init(d));
    }
  }

  /** Two proper domains with the same path are the same. */
  lemma {:induction false} PathIsInjective(a: bytes, b: bytes)
    requires Proper(a) && Proper(b) && Path(a) == Path(b)
    ensures a == b
    decreases |a|
  {
    hide Path, LastDot, NoDotAfter, Last, Init;
    PathHead(a);
    PathHead(b);
    SplitAtDot(a);
    SplitAtDot(b);
    assert Path(a)[1..] == Path(Init(a)) && Path(b)[1..] == Path(Init(b));
    PathOfNothing();
    if LastDot(a) >= 0 { PathHead(Init(a)); }
    if LastDot(b) >= 0 { PathHead(Init(b)); }
    if LastDot(a) >= 0 && LastDot(b) >= 0 {
      PathIsInjective(Init(a), Init(b));
    }
  }

  function Last(s: bytes): bytes {
    s[LastDot(s) + 1..]
  }

  function Init(s: bytes): bytes {
    if LastDot(s) < 0 then [] else s[..LastDot(s)]
  }

  lemma PathHead(s: bytes)
    requires s != []
    ensures Path(s) == [Last(s)] + Path(Init(s))
  {
    hide NoDotAfter;
    if LastDot(s) < 0 {
      assert s[0..] == s;
    }
  }

  lemma SplitAtDot(s: bytes)
    ensures LastDot(s) < 0 ==> s == Last(s) && Init(s) == []
    ensures LastDot(s) >= 0 ==> s == Init(s) + [DOT] + Last(s) && (Proper(s) ==> Proper(Init(s)))
  {
    hide NoDotAfter;
    if LastDot(s) < 0 {
      assert s[0..] == s;
    }
  }

  /** The last dot of x . d, for a d that is not empty and has no leading dot. */
  lemma LastOfBelow(x: bytes, d: bytes)
    ensures Last(x + [DOT] + d) == Last(d)
    ensures Init(x + [DOT] + d) == if LastDot(d) < 0 then x else x + [DOT] + Init(d)
  {
    hide LastDot, NoDotAfter, Last, Init;
    LastDotBelow(x, d);
    PartsAre(d);
    PartsAre(x + [DOT] + d);
  }

  lemma PartsAre(s: bytes)
    ensures -1 <= LastDot(s) < |s|
    ensures Last(s) == s[LastDot(s) + 1..]
    ensures Init(s) == if LastDot(s) < 0 then [] else s[..LastDot(s)]
  {
    hide LastDot, NoDotAfter;
  }

  lemma LastDotBelow(x: bytes, d: bytes)
    ensures LastDot(x + [DOT] + d) == LastDot(d) + |x| + 1
  {
    hide LastDot, NoDotAfter;
    assert (x + [DOT] + d)[|x| + 1..] == d;
    LastDotMoves(d, x + [DOT] + d, |x| + 1);
  }

  /** A proper domain's path starts the name's path exactly when the domain is aligned with the name's end. */
  lemma {:induction false} PrefixIffAligned(d: bytes, name: bytes)
    requires Proper(d)
    ensures Path(d) <= Path(name) <==> Aligned(d, name)
    decreases |d|
  {
    hide Path, LastDot, NoDotAfter, Aligned, Last, Init;
    if Aligned(d, name) {
      var x := AlignedSplit(d, name);
      if name != d {
        PathBelow(x, d);
      }
    }
    if Path(d) <= Path(name) {
      PathHead(d);
      PathOfNothing();
      PathHead(name);
      SplitAtDot(d);
      SplitAtDot(name);
      assert Path(d)[1..] == Path(Init(d)) && Path(name)[1..] == Path(Init(name));
      assert Last(d) == Path(d)[0] == Path(name)[0] == Last(name);
      if LastDot(d) < 0 {
        AlignedLast(d, name);
      } else {
        PathHead(Init(d));
        assert Path(Init(d)) <= Path(Init(name)) && Init(name) != [];
        PrefixIffAligned(Init(d), Init(name));
        SuffixExtends(Init(d), Init(name), [DOT] + Last(d));
        assert Init(d) + ([DOT] + Last(d)) == d && Init(name) + ([DOT] + Last(d)) == name;
      }
    }
  }

  lemma PathOfNothing()
    ensures Path([]) == []
  {
  }

  lemma AlignedSplit(d: bytes, name: bytes) returns (x: bytes)
    requires Aligned(d, name)
    ensures name != d ==> name == x + [DOT] + d
  {
    x := if name == d then [] else name[..|name| - |d| - 1];
  }

  lemma AlignedLast(d: bytes, name: bytes)
    requires d == Last(name)
    ensures Aligned(d, name)
  {
    hide LastDot, NoDotAfter;
    if LastDot(name) < 0 { assert name[0..] == name; }
  }

  lemma SuffixExtends(d: bytes, name: bytes, tail: bytes)
    requires Aligned(d, name)
    ensures Aligned(d + tail, name + tail)
  {
    if name != d {
      assert (name + tail)[|name| - |d|..] == name[|name| - |d|..] + tail;
    }
  }

  /** What is left of a text after k labels were cut off is what is left of its path. */
  lemma {:induction false} CutLeaves(s: bytes, k: nat)
    requires k <= |Path(s)|
    ensures Cut(s, k) == 0 ==> k == |Path(s)|
    ensures Cut(s, k) > 0 ==> Path(s[..Cut(s, k) - 1]) == Path(s)[k..]
    ensures k == |Path(s)| && Proper(s) ==> Cut(s, k) == 0
  {
    hide Path, LastDot, NoDotAfter, Last, Init;
    PathOfNothing();
    if k == 0 {
      assert s[..|s|] == s;
      if s != [] { PathHead(s); }
    } else {
      CutLeaves(s, k - 1);
      CutStep(s, k);
      var text := s[..Cut(s, k - 1) - 1];
      PathHead(text);
      SplitAtDot(text);
      assert Path(text)[1..] == Path(s)[k..];
      if Init(text) != [] { PathHead(Init(text)); }
    }
  }

  lemma CutStep(s: bytes, k: nat)
    requires k > 0 && Cut(s, k - 1) > 0
    ensures var text := s[..Cut(s, k - 1) - 1];
      && Cut(s, k) == LastDot(text) + 1
      && (LastDot(text) >= 0 ==> s[..Cut(s, k) - 1] == Init(text))
      && (LastDot(text) >= 0 && Init(text) == [] ==> s[0] == DOT)
  {
    hide NoDotAfter;
  }

  /** Cutting an aligned name is cutting the domain at the name's end. */
  lemma {:induction false} CutMoves(d: bytes, name: bytes, k: nat)
    requires Proper(d) && Aligned(d, name) && k <= |Path(d)|
    ensures Cut(name, k) == Cut(d, k) + |name| - |d|
  {
    hide Path, LastDot, NoDotAfter, Aligned, Proper;
    if k == 0 {
      CutNone(d);
      CutNone(name);
    } else {
      var delta := |name| - |d|;
      CutMoves(d, name, k - 1);
      CutLeaves(d, k - 1);
      var c := Cut(d, k - 1);
      LastDotAligned(d, name, c - 1);
      CutStep(d, k);
      CutStep(name, k);
    }
  }

  lemma LastDotAligned(d: bytes, name: bytes, c: nat)
    requires Aligned(d, name) && c <= |d|
    ensures |d| <= |name| && LastDot(name[..c + |name| - |d|]) == LastDot(d[..c]) + |name| - |d|
  {
    hide LastDot, NoDotAfter, Aligned;
    AlignedParts(d, name, c, |name| - |d|);
    LastDotMoves(d[..c], name[..c + |name| - |d|], |name| - |d|);
  }

  lemma CutNone(s: bytes)
    ensures Cut(s, 0) == |s| + 1
  {
  }

  lemma AlignedParts(d: bytes, name: bytes, c: nat, delta: int)
    requires Aligned(d, name) && c <= |d| && delta == |name| - |d|
    ensures delta >= 0 && |name[..c + delta]| == |d[..c]| + delta && name[..c + delta][delta..] == d[..c]
    ensures delta > 0 ==> name[..c + delta][delta - 1] == DOT
  {
  }

  /** The position of the label that closes an aligned domain. */
  lemma CutOfPrefix(d: bytes, name: bytes)
    requires Proper(d) && Aligned(d, name)
    ensures Cut(name, |Path(d)|) == |name| - |d|
  {
    hide Path, Cut, Aligned;
    CutMoves(d, name, |Path(d)|);
    CutLeaves(d, |Path(d)|);
  }

  // ----- what the stored map holds -----

  lemma {:induction false} StoredIsSome(domains: seq<bytes>, path: seq<bytes>)
    requires path in Stored(domains)
    ensures Stored(domains)[path] in domains && Path(Stored(domains)[path]) == path
  {
    var n := |domains| - 1;
    if path != Path(domains[n]) {
      StoredIsSome(domains[..n], path);
      assert Stored(domains)[path] in domains[..n];
    }
  }

  lemma {:induction false} EachIsStored(domains: seq<bytes>, d: bytes)
    requires d in domains
    ensures Path(d) in Stored(domains)
  {
    var n := |domains| - 1;
    if d != domains[n] {
      assert d in domains[..n];
      EachIsStored(domains[..n], d);
    }
  }

  lemma {:induction false} DeepestIsLast(stored: map<seq<bytes>, bytes>, path: seq<bytes>, k: nat, i: nat)
    requires 0 < i <= k <= |path| && path[..i] in stored && stored[path[..i]] != []
    ensures Deepest(stored, path, k) >= i
  {
    if i < k { DeepestIsLast(stored, path, k - 1, i); }
  }

  /** No leading dot plays a part for this name: neither in a domain aligned with it nor in one stored on its path. */
  ghost predicate CleanOn(domains: seq<bytes>, name: bytes) {
    && (forall d :: d in domains && Aligned(d, name) ==> Proper(d))
    && (forall i {:trigger Path(name)[..i]} :: 0 <= i <= |Path(name)| && Path(name)[..i] in Stored(domains) ==>
      Proper(Stored(domains)[Path(name)[..i]]))
  }

  lemma ProperIsClean(domains: seq<bytes>, name: bytes)
    requires AllProper(domains)
    ensures CleanOn(domains, name)
  {
    hide Path, Stored, Aligned, Proper;
    var path := Path(name);
    forall i {:trigger path[..i]} | 0 <= i <= |path| && path[..i] in Stored(domains)
      ensures Proper(Stored(domains)[path[..i]])
    {
      StoredIsSome(domains, path[..i]);
    }
  }

  /** Where no leading dot plays a part the walk finds the longest allowed domain aligned with the name's end, and
      the labels before it without their dots; it finds nothing exactly when there is none. */
  lemma FindIsLinearOn(domains: seq<bytes>, name: bytes)
    requires CleanOn(domains, name)
    ensures Find(Stored(domains), name).NoMatch? <==> (forall d :: d in domains ==> !Aligned(d, name))
    ensures Find(Stored(domains), name).Matched? ==>
      var f := Find(Stored(domains), name);
      Longest(domains, name, f.base) && f.labels == Before(name, |name| - |f.base|)
  {
    hide Path, Stored, Cut, Deepest, Aligned, Before, Proper;
    var stored, path := Stored(domains), Path(name);
    var j := Deepest(stored, path, |path|);
    forall d | d in domains && Aligned(d, name)
      ensures 0 < |Path(d)| <= j
    {
      AlignedIsFound(domains, name, d);
    }
    if j > 0 {
      var base := stored[path[..j]];
      StoredIsSome(domains, path[..j]);
      PrefixIffAligned(base, name);
      CutOfPrefix(base, name);
      forall d | d in domains && Aligned(d, name)
        ensures |d| <= |base|
      {
        AlignedIsFound(domains, name, d);
        PrefixIffAligned(d, name);
        assert Path(d) <= Path(base);
        PrefixIffAligned(d, base);
        AlignedIsShorter(d, base);
      }
    }
  }

  /** Without leading dots that holds for every name. */
  lemma FindIsLinear(domains: seq<bytes>, name: bytes)
    requires AllProper(domains)
    ensures Find(Stored(domains), name).NoMatch? <==> (forall d :: d in domains ==> !Aligned(d, name))
    ensures Find(Stored(domains), name).Matched? ==>
      var f := Find(Stored(domains), name);
      Longest(domains, name, f.base) && f.labels == Before(name, |name| - |f.base|)
  {
    hide Find, Stored, Aligned, Before, CleanOn, AllProper, Longest;
    ProperIsClean(domains, name);
    FindIsLinearOn(domains, name);
  }

  lemma ProperIsText(d: bytes)
    requires Proper(d)
    ensures d != []
  {
  }

  lemma AlignedIsFound(domains: seq<bytes>, name: bytes, d: bytes)
    requires CleanOn(domains, name) && d in domains && Aligned(d, name)
    ensures 0 < |Path(d)| <= Deepest(Stored(domains), Path(name), |Path(name)|) && Path(d) <= Path(name)
  {
    hide Path, Stored, Deepest, Aligned, LastDot, NoDotAfter, Proper;
    assert Proper(d);
    ProperIsText(d);
    var stored, path := Stored(domains), Path(name);
    PrefixIffAligned(d, name);
    EachIsStored(domains, d);
    assert path[..|Path(d)|] == Path(d);
    StoredIsSome(domains, Path(d));
    PathIsInjective(d, stored[Path(d)]);
    PathHead(d);
    DeepestIsLast(stored, path, |path|, |Path(d)|);
  }

  lemma AlignedIsShorter(d: bytes, name: bytes)
    requires Aligned(d, name)
    ensures |d| <= |name|
  {
  }

  // ----- the tree in memory -----

  class Node {
    var children: map<bytes, Node>
    var domain: bytes

    constructor ()
      ensures children == map[] && domain == []
    {
      children, domain := map[], [];
    }
  }

  /** The nodes of a tree, each under the labels that lead to it from the root. */
  ghost predicate IsTrie(root: Node, nodes: map<seq<bytes>, Node>)
    reads nodes.Values
  {
    && [] in nodes && nodes[[]] == root
    && (forall p, q :: p in nodes && q in nodes && nodes[p] == nodes[q] ==> p == q)
    && (forall p, part :: p in nodes ==> (part in nodes[p].children <==> p + [part] in nodes))
    && (forall p, part :: p in nodes && part in nodes[p].children ==> nodes[p].children[part] == nodes[p + [part]])
    && (forall p :: p in nodes && p != [] ==> p[..|p| - 1] in nodes)
  }

  ghost function DomainAt(nodes: map<seq<bytes>, Node>, p: seq<bytes>): bytes
    reads nodes.Values
  {
    if p in nodes then nodes[p].domain else []
  }

  function Value(stored: map<seq<bytes>, bytes>, p: seq<bytes>): bytes {
    if p in stored then stored[p] else []
  }

  ghost predicate Carries(nodes: map<seq<bytes>, Node>, stored: map<seq<bytes>, bytes>)
    reads nodes.Values
  {
    forall p :: DomainAt(nodes, p) == Value(stored, p)
  }

  ghost function Kids(nodes: map<seq<bytes>, Node>): (k: map<seq<bytes>, map<bytes, Node>>)
    reads nodes.Values
    ensures k.Keys == nodes.Keys && forall p :: p in nodes ==> k[p] == nodes[p].children
  {
    map p | p in nodes :: nodes[p].children
  }

  /** IsTrie, with the children of every node written out. */
  ghost predicate IsTree(root: Node, nodes: map<seq<bytes>, Node>, kids: map<seq<bytes>, map<bytes, Node>>) {
    && kids.Keys == nodes.Keys && [] in nodes && nodes[[]] == root
    && (forall p, q :: p in nodes && q in nodes && nodes[p] == nodes[q] ==> p == q)
    && (forall p, part :: p in nodes ==> (part in kids[p] <==> p + [part] in nodes))
    && (forall p, part :: p in nodes && part in kids[p] ==> kids[p][part] == nodes[p + [part]])
    && (forall p :: p in nodes && p != [] ==> p[..|p| - 1] in nodes)
  }

  lemma TrieIsTree(root: Node, nodes: map<seq<bytes>, Node>)
    ensures IsTrie(root, nodes) <==> IsTree(root, nodes, Kids(nodes))
  {
  }

  lemma TreeGrows(root: Node, nodes: map<seq<bytes>, Node>, kids: map<seq<bytes>, map<bytes, Node>>, p: seq<bytes>,
                  part: bytes, child: Node)
    requires IsTree(root, nodes, kids) && p in nodes && part !in kids[p] && child !in nodes.Values
    ensures p + [part] !in nodes
    ensures IsTree(root, nodes[p + [part] := child], kids[p := kids[p][part := child]][p + [part] := map[]])
  {
    var grown, more := nodes[p + [part] := child], kids[p := kids[p][part := child]][p + [part] := map[]];
    assert (p + [part])[..|p|] == p;
    forall q, l | q in grown
      ensures l in more[q] <==> q + [l] in grown
      ensures l in more[q] ==> more[q][l] == grown[q + [l]]
    {
      ExtendedPaths(q, l, p, part);
      assert (q + [l])[..|q + [l]| - 1] == q;
    }
  }

  /** The new child of a node, linked under a label it did not have. */
  method AddChild(root: Node, ghost nodes: map<seq<bytes>, Node>, ghost p: seq<bytes>, node: Node, part: bytes)
    returns (child: Node, ghost grown: map<seq<bytes>, Node>)
    requires IsTrie(root, nodes) && p in nodes && nodes[p] == node && part !in node.children
    modifies node`children
    ensures fresh(child) && grown == nodes[p + [part] := child] && IsTrie(root, grown)
    ensures child.domain == []
  {
    TrieIsTree(root, nodes);
    ghost var kids := Kids(nodes);
    OneNodeEach(root, nodes, p);
    hide IsTrie, IsTree;
    child := new Node();
    grown := nodes[p + [part] := child];
    TreeGrows(root, nodes, kids, p, part, child);
    node.children := node.children[part := child];
    assert Kids(grown) == kids[p := kids[p][part := child]][p + [part] := map[]];
    TrieIsTree(root, grown);
  }

  lemma OneNodeEach(root: Node, nodes: map<seq<bytes>, Node>, p: seq<bytes>)
    requires IsTrie(root, nodes) && p in nodes
    ensures forall q :: q in nodes && q != p ==> nodes[q] != nodes[p]
  {
  }

  lemma ExtendedPaths(q: seq<bytes>, l: bytes, p: seq<bytes>, part: bytes)
    ensures q + [l] == p + [part] <==> q == p && l == part
    ensures (q + [l])[..|q|] == q && q + [l] != q
  {
    if q + [l] == p + [part] {
      assert q == (q + [l])[..|q|] && p == (p + [part])[..|p|];
      assert (q + [l])[|q|] == l && (p + [part])[|p|] == part;
    }
  }

  lemma ChildIs(root: Node, nodes: map<seq<bytes>, Node>, p: seq<bytes>, part: bytes)
    requires IsTrie(root, nodes) && p in nodes
    ensures part in nodes[p].children <==> p + [part] in nodes
    ensures part in nodes[p].children ==> nodes[p].children[part] == nodes[p + [part]]
  {
  }

  /** One step down, making the child when it is missing. */
  method Descend(root: Node, ghost nodes: map<seq<bytes>, Node>, ghost p: seq<bytes>, node: Node, part: bytes)
    returns (child: Node, ghost grown: map<seq<bytes>, Node>)
    requires IsTrie(root, nodes) && p in nodes && nodes[p] == node
    modifies node`children
    ensures IsTrie(root, grown) && p + [part] in grown && grown[p + [part]] == child
    ensures fresh(grown.Values - nodes.Values)
    ensures forall q :: DomainAt(grown, q) == old(DomainAt(nodes, q))
  {
    hide IsTrie;
    ChildIs(root, nodes, p, part);
    if part in node.children {
      child, grown := node.children[part], nodes;
    } else {
      child, grown := AddChild(root, nodes, p, node, part);
    }
  }

  /** The last assignment of the outer loop's body. */
  method SetDomain(root: Node, ghost nodes: map<seq<bytes>, Node>, ghost p: seq<bytes>, node: Node, domain: bytes)
    requires IsTrie(root, nodes) && p in nodes && nodes[p] == node
    modifies node`domain
    ensures IsTrie(root, nodes)
    ensures forall q :: DomainAt(nodes, q) == if q == p then domain else old(DomainAt(nodes, q))
  {
    node.domain := domain;
  }

  /** What is left of a path once the labels from `offset` on were taken. */
  function Rest(s: bytes, offset: nat): seq<bytes>
    requires offset <= |s|
  {
    Path(s[..offset])
  }

  lemma RestBounds(s: bytes)
    ensures Rest(s, |s|) == Path(s) && Rest(s, 0) == []
  {
    assert s[..|s|] == s && s[..0] == [];
  }

  /** The last label before `offset`, and where the text before it ends. */
  function NextPart(s: bytes, offset: nat): bytes
    requires offset <= |s|
  {
    Last(s[..offset])
  }

  function NextOffset(s: bytes, offset: nat): (next: nat)
    requires offset <= |s|
    ensures next <= offset && (offset > 0 ==> next < offset)
  {
    |Init(s[..offset])|
  }

  lemma RestUnfolds(s: bytes, offset: nat)
    requires 0 < offset <= |s|
    ensures Rest(s, offset) == [NextPart(s, offset)] + Rest(s, NextOffset(s, offset))
  {
    hide Path, Init, Last;
    PathHead(s[..offset]);
    InitIsPrefix(s, offset);
  }

  lemma InitIsPrefix(s: bytes, offset: nat)
    requires offset <= |s|
    ensures Init(s[..offset]) == s[..|Init(s[..offset])|]
  {
    hide LastDot, NoDotAfter;
  }

  lemma RestStep(s: bytes, offset: nat, done: seq<bytes>)
    requires 0 < offset <= |s|
    ensures done + Rest(s, offset) == done + [NextPart(s, offset)] + Rest(s, NextOffset(s, offset))
  {
    hide Rest, NextPart, NextOffset;
    RestUnfolds(s, offset);
    Regroup(done, [NextPart(s, offset)], Rest(s, NextOffset(s, offset)));
  }

  lemma NextOffsetIs(s: bytes, offset: nat)
    requires offset <= |s|
    ensures NextOffset(s, offset) == if LastDot(s[..offset]) < 0 then 0 else LastDot(s[..offset])
    ensures NextPart(s, offset) == s[LastDot(s[..offset]) + 1..offset]
  {
    hide LastDot, NoDotAfter;
  }

  lemma InsertRound(domain: bytes, done: seq<bytes>, offset: nat, start: int, part: bytes)
    requires 0 < offset <= |domain| && Path(domain) == done + Rest(domain, offset)
    requires start == LastDot(domain[..offset]) && part == domain[start + 1..offset]
    ensures Path(domain) == done + [part] + Rest(domain, if start < 0 then 0 else start)
  {
    hide Path, Rest, LastDot, NoDotAfter, NextPart, NextOffset;
    RestStep(domain, offset, done);
    NextOffsetIs(domain, offset);
  }

  /** The inner loop of buildDomainTrie. */
  method Insert(root: Node, ghost nodes: map<seq<bytes>, Node>, domain: bytes)
    returns (ghost grown: map<seq<bytes>, Node>)
    requires IsTrie(root, nodes)
    modifies nodes.Values
    ensures IsTrie(root, grown) && fresh(grown.Values - nodes.Values)
    ensures forall q :: DomainAt(grown, q) == if q == Path(domain) then domain else old(DomainAt(nodes, q))
  {
    hide IsTrie, DomainAt, Path, Rest, LastDot, NoDotAfter;
    RootIs(root, nodes);
    RestBounds(domain);
    grown := nodes;
    var node := root;
    var offset: nat := |domain|;
    ghost var done: seq<bytes> := [];
    while offset > 0
      invariant offset <= |domain|
      invariant IsTrie(root, grown) && done in grown && grown[done] == node
      invariant fresh(grown.Values - nodes.Values)
      invariant Path(domain) == done + Rest(domain, offset)
      invariant forall q :: DomainAt(grown, q) == old(DomainAt(nodes, q))
    {
      var start := LastDot(domain[..offset]);
      var part := domain[start + 1..offset];
      InsertRound(domain, done, offset, start, part);
      assert node in grown.Values;
      node, grown := Descend(root, grown, done, node, part);
      done := done + [part];
      if start < 0 {
        offset := 0;
        break;
      }
      offset := start;
    }
    assert done == Path(domain);
    assert node in grown.Values;
    SetDomain(root, grown, done, node, domain);
  }

  lemma RootIs(root: Node, nodes: map<seq<bytes>, Node>)
    requires IsTrie(root, nodes)
    ensures [] in nodes && nodes[[]] == root
  {
  }

  lemma OneMoreStored(domains: seq<bytes>, i: nat)
    requires i < |domains|
    ensures Stored(domains[..i + 1]) == Stored(domains[..i])[Path(domains[i]) := domains[i]]
  {
    hide Path;
    assert domains[..i + 1][..i] == domains[..i];
  }

  lemma ValueAfter(stored: map<seq<bytes>, bytes>, path: seq<bytes>, domain: bytes)
    ensures forall p :: Value(stored[path := domain], p) == if p == path then domain else Value(stored, p)
  {
    forall p ensures Value(stored[path := domain], p) == if p == path then domain else Value(stored, p) {
      if p == path {} else {}
    }
  }

  /** buildDomainTrie */
  method Build(domains: seq<bytes>) returns (root: Node?, ghost nodes: map<seq<bytes>, Node>)
    ensures root == null <==> domains == []
    ensures root != null ==> IsTrie(root, nodes) && Carries(nodes, Stored(domains))
    ensures fresh(nodes.Values)
  {
    nodes := map[];
    if |domains| == 0 {
      return null, nodes;
    }
    var first := new Node();
    nodes := map[[] := first];
    ghost var stored: map<seq<bytes>, bytes> := map[];
    assert Carries(nodes, stored) && stored == Stored(domains[..0]);
    hide IsTrie, Stored, Value, Path, DomainAt;
    assert IsTrie(first, nodes) by { LoneRoot(first, nodes); }
    for i := 0 to |domains|
      invariant IsTrie(first, nodes) && fresh(nodes.Values)
      invariant stored == Stored(domains[..i]) && Carries(nodes, stored)
    {
      nodes := Insert(first, nodes, domains[i]);
      OneMoreStored(domains, i);
      ValueAfter(stored, Path(domains[i]), domains[i]);
      stored := stored[Path(domains[i]) := domains[i]];
    }
    assert domains[..|domains|] == domains;
    root := first;
  }

  lemma LoneRoot(root: Node, nodes: map<seq<bytes>, Node>)
    requires nodes == map[[] := root] && root.children == map[]
    ensures IsTrie(root, nodes)
  {
    forall p: seq<bytes>, part | p in nodes
      ensures p + [part] !in nodes
    {
      ExtendedPaths(p, part, [], []);
    }
  }

  /** Beyond a missing child nothing is stored. */
  lemma {:induction false} NothingBeyond(root: Node, nodes: map<seq<bytes>, Node>, path: seq<bytes>, j: nat, k: nat)
    requires IsTrie(root, nodes) && j <= k <= |path| && path[..j] !in nodes
    ensures path[..k] !in nodes
  {
    if j < k {
      NothingBeyond(root, nodes, path, j, k - 1);
      assert path[..k][..k - 1] == path[..k - 1];
    }
  }

  lemma {:induction false} DeepestStops(root: Node, nodes: map<seq<bytes>, Node>, stored: map<seq<bytes>, bytes>,
                                        path: seq<bytes>, j: nat, k: nat)
    requires IsTrie(root, nodes) && Carries(nodes, stored) && j <= k <= |path|
    requires j < |path| ==> path[..j + 1] !in nodes
    ensures Deepest(stored, path, k) == Deepest(stored, path, j)
  {
    hide IsTrie;
    if j < k {
      DeepestStops(root, nodes, stored, path, j, k - 1);
      NothingBeyond(root, nodes, path, j + 1, k);
      assert DomainAt(nodes, path[..k]) == Value(stored, path[..k]);
    }
  }

  /** Where the walk stands: the labels `done` were found, the text before `offset` is still to come. */
  ghost predicate Stands(nodes: map<seq<bytes>, Node>, name: bytes, done: seq<bytes>, offset: nat, node: Node) {
    && offset <= |name|
    && done in nodes && nodes[done] == node
    && Path(name) == done + Rest(name, offset)
    && (offset > 0 ==> Cut(name, |done|) == offset + 1)
  }

  lemma StandsFirst(root: Node, nodes: map<seq<bytes>, Node>, name: bytes)
    requires IsTrie(root, nodes)
    ensures Stands(nodes, name, [], |name|, root)
  {
    hide Path, Rest;
    RestBounds(name);
    assert Path(name) == [] + Path(name);
  }

  /** One round: the next label is a child's exactly when the longer path is a node. */
  lemma StandsNext(root: Node, nodes: map<seq<bytes>, Node>, name: bytes, done: seq<bytes>, offset: nat, node: Node,
                   part: bytes)
    requires IsTrie(root, nodes) && Stands(nodes, name, done, offset, node) && offset > 0
    requires part == NextPart(name, offset)
    ensures part in node.children <==> done + [part] in nodes
    ensures part in node.children ==>
      Stands(nodes, name, done + [part], NextOffset(name, offset), node.children[part])
  {
    hide IsTrie, Path, Rest, Cut, LastDot, NoDotAfter, Stands, NextPart, NextOffset;
    StandsMeans(nodes, name, done, offset, node);
    ChildIs(root, nodes, done, part);
    if part in node.children {
      StandsAfter(nodes, name, done, offset, part);
    }
  }

  lemma StandsMeans(nodes: map<seq<bytes>, Node>, name: bytes, done: seq<bytes>, offset: nat, node: Node)
    requires Stands(nodes, name, done, offset, node)
    ensures offset <= |name| && done in nodes && nodes[done] == node && Path(name) == done + Rest(name, offset)
    ensures offset > 0 ==> Cut(name, |done|) == offset + 1
  {
  }

  lemma StandsAfter(nodes: map<seq<bytes>, Node>, name: bytes, done: seq<bytes>, offset: nat, part: bytes)
    requires 0 < offset <= |name| && Path(name) == done + Rest(name, offset) && Cut(name, |done|) == offset + 1
    requires part == NextPart(name, offset) && done + [part] in nodes
    ensures Stands(nodes, name, done + [part], NextOffset(name, offset), nodes[done + [part]])
  {
    hide Path, Rest, LastDot, NoDotAfter, NextPart, NextOffset, Cut;
    RestStep(name, offset, done);
    CutOnce(name, |done|, offset);
  }

  lemma PathGoesOn(name: bytes, done: seq<bytes>, offset: nat)
    requires 0 < offset <= |name| && Path(name) == done + Rest(name, offset)
    ensures |done| < |Path(name)|
    ensures Path(name)[..|done| + 1] == done + [NextPart(name, offset)]
  {
    hide Path, LastDot, NoDotAfter, Rest, NextPart, NextOffset;
    RestStep(name, offset, done);
  }

  lemma CutOnce(name: bytes, k: nat, offset: nat)
    requires 0 < offset <= |name| && Cut(name, k) == offset + 1
    ensures Cut(name, k + 1) == LastDot(name[..offset]) + 1
    ensures NextOffset(name, offset) > 0 ==> Cut(name, k + 1) == NextOffset(name, offset) + 1
  {
    hide LastDot, NoDotAfter;
  }

  /** The walk has looked up `done` labels and remembers the deepest domain among them. */
  ghost predicate Walked(stored: map<seq<bytes>, bytes>, name: bytes, done: nat, matchedPos: int, base: bytes) {
    && done <= |Path(name)|
    && var j := Deepest(stored, Path(name), done);
       if j == 0 then matchedPos < 0 else matchedPos == Cut(name, j) && base == stored[Path(name)[..j]]
  }

  lemma StartWalk(stored: map<seq<bytes>, bytes>, name: bytes)
    ensures Walked(stored, name, 0, -1, [])
  {
  }

  lemma WalkStep(nodes: map<seq<bytes>, Node>, stored: map<seq<bytes>, bytes>, name: bytes, done: seq<bytes>,
                 matchedPos: int, base: bytes)
    requires Carries(nodes, stored) && done != [] && done <= Path(name) && done in nodes
    requires Walked(stored, name, |done| - 1, matchedPos, base)
    ensures var domain := nodes[done].domain;
      if domain != [] then Walked(stored, name, |done|, Cut(name, |done|), domain)
      else Walked(stored, name, |done|, matchedPos, base)
  {
    hide Path, Cut;
    assert Path(name)[..|done|] == done;
    assert DomainAt(nodes, done) == Value(stored, done);
  }

  lemma WalkOver(stored: map<seq<bytes>, bytes>, name: bytes, done: nat, matchedPos: int, base: bytes)
    requires Walked(stored, name, done, matchedPos, base)
    requires Deepest(stored, Path(name), |Path(name)|) == Deepest(stored, Path(name), done)
    ensures -1 < matchedPos ==> matchedPos <= |name| + 1
    ensures Find(stored, name) == if matchedPos < 0 then NoMatch else Matched(base, Before(name, matchedPos))
  {
    hide Path, Cut, Deepest;
  }

  lemma WalkEnds(root: Node, nodes: map<seq<bytes>, Node>, stored: map<seq<bytes>, bytes>, name: bytes,
                 done: seq<bytes>, offset: nat, node: Node)
    requires IsTrie(root, nodes) && Carries(nodes, stored) && Stands(nodes, name, done, offset, node)
    requires offset == 0 || (offset <= |name| && NextPart(name, offset) !in node.children)
    ensures |done| <= |Path(name)|
    ensures Deepest(stored, Path(name), |Path(name)|) == Deepest(stored, Path(name), |done|)
  {
    hide IsTrie, Carries, Path, Cut, Deepest, LastDot, NoDotAfter, Rest, NextPart;
    if offset > 0 {
      StandsNext(root, nodes, name, done, offset, node, NextPart(name, offset));
      PathGoesOn(name, done, offset);
    } else {
      RestBounds(name);
    }
    DeepestStops(root, nodes, stored, Path(name), |done|, |Path(name)|);
  }

  lemma WalkRound(root: Node, nodes: map<seq<bytes>, Node>, stored: map<seq<bytes>, bytes>, name: bytes,
                  done: seq<bytes>, offset: nat, node: Node, matchedPos: int, base: bytes, start: int, part: bytes)
    requires IsTrie(root, nodes) && Carries(nodes, stored) && Stands(nodes, name, done, offset, node)
    requires Walked(stored, name, |done|, matchedPos, base)
    requires 0 < offset <= |name| && start == LastDot(name[..offset]) && part == name[start + 1..offset]
    ensures part == NextPart(name, offset)
    ensures part in node.children ==>
      var child := node.children[part];
      && Stands(nodes, name, done + [part], if start < 0 then 0 else start, child)
      && if child.domain != [] then Walked(stored, name, |done| + 1, start + 1, child.domain)
         else Walked(stored, name, |done| + 1, matchedPos, base)
  {
    hide IsTrie, Carries, Path, Cut, LastDot, NoDotAfter, Rest, Walked, Stands, NextOffset, NextPart;
    NextOffsetIs(name, offset);
    StandsNext(root, nodes, name, done, offset, node, part);
    StandsMeans(nodes, name, done, offset, node);
    CutOnce(name, |done|, offset);
    if part in node.children {
      StandsOn(nodes, name, done + [part], NextOffset(name, offset), node.children[part]);
      WalkStep(nodes, stored, name, done + [part], matchedPos, base);
    }
  }

  /** The loop of findAllowedDomain. */
  method Walk(name: bytes, root: Node, ghost nodes: map<seq<bytes>, Node>, ghost stored: map<seq<bytes>, bytes>)
    returns (base: bytes, matchedPos: int)
    requires IsTrie(root, nodes) && Carries(nodes, stored)
    ensures matchedPos <= |name| + 1
    ensures Find(stored, name) == if matchedPos < 0 then NoMatch else Matched(base, Before(name, matchedPos))
  {
    hide IsTrie, Carries, Path, Cut, Deepest, Find, LastDot, NoDotAfter, Rest, Walked, Stands, Before, NextOffset,
      NextPart;
    var node := root;
    var offset: nat := |name|;
    base, matchedPos := [], -1;
    ghost var done: seq<bytes> := [];
    StandsFirst(root, nodes, name);
    StartWalk(stored, name);
    while offset > 0
      invariant offset <= |name| && Stands(nodes, name, done, offset, node)
      invariant Walked(stored, name, |done|, matchedPos, base)
    {
      var start := LastDot(name[..offset]);
      var labelStart := start + 1;
      var part := name[labelStart..offset];
      WalkRound(root, nodes, stored, name, done, offset, node, matchedPos, base, start, part);
      if part !in node.children {
        break;
      }
      node := node.children[part];
      done := done + [part];
      if node.domain != [] {
        base := node.domain;
        matchedPos := labelStart;
      }
      if start < 0 {
        offset := 0;
        break;
      }
      offset := start;
    }
    WalkEnds(root, nodes, stored, name, done, offset, node);
    WalkOver(stored, name, |done|, matchedPos, base);
  }

  lemma StandsOn(nodes: map<seq<bytes>, Node>, name: bytes, done: seq<bytes>, offset: nat, node: Node)
    requires Stands(nodes, name, done, offset, node)
    ensures done in nodes && nodes[done] == node && done <= Path(name)
  {
    hide Path, Rest;
  }

  /** findAllowedDomain: what the code finds is what the stored map says. */
  method FindAllowed(name: bytes, root: Node?, ghost nodes: map<seq<bytes>, Node>,
                     ghost stored: map<seq<bytes>, bytes>) returns (r: Found)
    requires root == null ==> stored == map[]
    requires root != null ==> IsTrie(root, nodes) && Carries(nodes, stored)
    ensures r == Find(stored, name)
  {
    hide IsTrie, Carries, Find;
    if root == null || name == [] {
      NothingFound(stored, name);
      return NoMatch;
    }
    var base, matchedPos := Walk(name, root, nodes, stored);
    if matchedPos < 0 {
      return NoMatch;
    }
    if matchedPos == 0 {
      return Matched(base, []);
    }
    var labels := StripLabelDots(name[..matchedPos - 1]);
    r := Matched(base, labels);
  }

  lemma NothingFound(stored: map<seq<bytes>, bytes>, name: bytes)
    requires stored == map[] || name == []
    ensures Find(stored, name) == NoMatch
  {
    hide Path;
    PathOfNothing();
  }

  /** stripLabelDots */
  method StripLabelDots(labels: bytes) returns (b: bytes)
    ensures b == StripDots(labels)
  {
    b := [];
    for i := 0 to |labels|
      invariant b == StripDots(labels[..i])
    {
      assert labels[..i + 1][..i] == labels[..i];
      if labels[i] != DOT {
        b := b + [labels[i]];
      }
    }
    assert labels[..|labels|] == labels;
  }

  // ----- the decision -----

  datatype Reason = UnauthorizedDomain | UnsupportedType | MissingLabels | LabelsTooShort

  datatype Decision = FormatError | NoData(reason: Reason) | Process(base: bytes, labels: bytes)

  /** New: a minimum below one becomes three. */
  function MinLabels(given: int): (n: nat)
    ensures n >= 1
  {
    if given < 1 then 3 else given
  }

  /** Match */
  function Decide(stored: map<seq<bytes>, bytes>, minimum: int, question: Option<Question>): Decision {
    if question.None? then FormatError
    else
      var name := TrimDot(question.value.name);
      if name == [] || name == [DOT] then FormatError
      else match Find(stored, name)
        case NoMatch => NoData(UnauthorizedDomain)
        case Matched(base, labels) =>
          if question.value.qtype != TXT then NoData(UnsupportedType)
          else if labels == [] then NoData(MissingLabels)
          else if |labels| < MinLabels(minimum) then NoData(LabelsTooShort)
          else Process(base, labels)
  }

  /** A question is processed exactly when it asks for TXT below an allowed domain with enough label text, and
      then under the longest such domain. */
  lemma ProcessIff(domains: seq<bytes>, minimum: int, q: Question, base: bytes, labels: bytes)
    requires AllProper(domains)
    ensures Decide(Stored(domains), minimum, Some(q)) == Process(base, labels) <==>
      (var name := TrimDot(q.name);
       && q.qtype == TXT && name != [] && name != [DOT]
       && Longest(domains, name, base)
       && labels == Before(name, |name| - |base|) && |labels| >= (if minimum < 1 then 3 else minimum))
  {
    hide Find, Stored, Aligned, Before, AllProper;
    var name := TrimDot(q.name);
    FindIsLinear(domains, name);
    if Find(Stored(domains), name).Matched? && base in domains {
      LongestIsUnique(domains, name, base, Find(Stored(domains), name).base);
    }
  }

  /** How much of the name stands in front of the domain, without dots. */
  function InFront(name: bytes, base: bytes): nat {
    if |base| <= |name| then |Before(name, |name| - |base|)| else 0
  }

  /** Every refusal and its reason: no name is a format error, no allowed domain unauthorised; under the longest one
      another type than TXT is unsupported, nothing in front of it missing, too little of it too short. */
  lemma RefusedIff(domains: seq<bytes>, minimum: int, q: Question)
    requires AllProper(domains)
    ensures var name := TrimDot(q.name); var d := Decide(Stored(domains), minimum, Some(q));
      && (d == FormatError <==> name == [] || name == [DOT])
      && (d == NoData(UnauthorizedDomain) <==>
           name != [] && name != [DOT] && forall base :: base in domains ==> !Aligned(base, name))
      && (forall base :: name != [] && name != [DOT] && Longest(domains, name, base) ==>
           var front := InFront(name, base);
           && (d == NoData(UnsupportedType) <==> q.qtype != TXT)
           && (d == NoData(MissingLabels) <==> q.qtype == TXT && front == 0)
           && (d == NoData(LabelsTooShort) <==>
                q.qtype == TXT && 0 < front < (if minimum < 1 then 3 else minimum)))
    ensures Decide(Stored(domains), minimum, None) == FormatError
  {
    hide Find, Stored, Aligned, Before, AllProper;
    var name := TrimDot(q.name);
    FindIsLinear(domains, name);
    var found := Find(Stored(domains), name);
    if found.Matched? {
      LongestIsUnique(domains, name, found.base, found.base);
      assert InFront(name, found.base) == |found.labels|;
      forall base | Longest(domains, name, base) ensures base == found.base {
        LongestIsUnique(domains, name, base, found.base);
      }
    }
  }

  lemma LongestIsUnique(domains: seq<bytes>, name: bytes, a: bytes, b: bytes)
    ensures Longest(domains, name, a) ==> |a| <= |name|
    ensures Longest(domains, name, a) && Longest(domains, name, b) ==> a == b
  {
  }

  /** Match, on the tree in memory. */
  method Match(root: Node?, ghost nodes: map<seq<bytes>, Node>, ghost stored: map<seq<bytes>, bytes>, minimum: int,
               question: Option<Question>) returns (r: Decision)
    requires root == null ==> stored == map[]
    requires root != null ==> IsTrie(root, nodes) && Carries(nodes, stored)
    ensures r == Decide(stored, minimum, question)
  {
    hide IsTrie, Carries, Find;
    if question.None? {
      return FormatError;
    }
    var name := TrimDot(question.value.name);
    if name == [] || name == [DOT] {
      return FormatError;
    }
    var found := FindAllowed(name, root, nodes, stored);
    if found.NoMatch? {
      return NoData(UnauthorizedDomain);
    }
    if question.value.qtype != TXT {
      return NoData(UnsupportedType);
    }
    if found.labels == [] {
      return NoData(MissingLabels);
    }
    if |found.labels| < MinLabels(minimum) {
      return NoData(LabelsTooShort);
    }
    r := Process(found.base, found.labels);
  }

  // ----- leading dots -----

  /** A domain that begins with a dot is stored under the path of the rest, so a tree that holds only it answers
      for names the linear reading excludes. */
  lemma LeadingDotIsLost(rest: bytes, x: bytes)
    requires Proper(rest) && x != []
    ensures Path([DOT] + rest) == Path(rest)
    ensures var name := x + [DOT] + rest;
      && Find(Stored([[DOT] + rest]), name).Matched?
      && (|x| > 1 && x[|x| - 1] != DOT ==> !Aligned([DOT] + rest, name))
  {
    hide Path, LastDot, NoDotAfter, Cut;
    PathOfNothing();
    PathBelow([], rest);
    assert [] + [DOT] + rest == [DOT] + rest;
    assert Path(rest) + [] == Path(rest);
    PathBelow(x, rest);
    PathHead(rest);
    OneStored([DOT] + rest);
    var path := Path(x + [DOT] + rest);
    assert path[..|Path(rest)|] == Path(rest);
    DeepestIsLast(Stored([[DOT] + rest]), path, |path|, |Path(rest)|);
    if |x| > 1 && x[|x| - 1] != DOT {
    }
  }

  lemma OneStored(d: bytes)
    ensures Stored([d]) == map[Path(d) := d]
  {
    hide Path;
    assert [d][..0] == [];
  }

  /** The tree answers as the linear reading does: no match exactly when no domain is aligned, and otherwise the
      longest aligned one. */
  ghost predicate Agrees(domains: seq<bytes>, name: bytes) {
    var f := Find(Stored(domains), name);
    && (f.NoMatch? <==> forall d :: d in domains ==> !Aligned(d, name))
    && (f.Matched? ==> Longest(domains, name, f.base))
  }

  /** For every list of domains the configuration can hold, the tree agrees with the linear reading on every name
      exactly when no domain has a leading dot. */
  lemma AgreesIffProper(domains: seq<bytes>)
    requires forall d :: d in domains ==> d != [] && d != [DOT]
    ensures (forall name :: name != [] ==> Agrees(domains, name)) <==> AllProper(domains)
  {
    hide Find, Stored, Aligned, Longest;
    if AllProper(domains) {
      forall name: bytes | name != []
        ensures Agrees(domains, name)
      {
        FindIsLinear(domains, name);
      }
    } else {
      var d :| d in domains && !Proper(d);
      var name := WrongName(domains, d);
      assert !Agrees(domains, name);
    }
  }

  /** A name the tree answers wrongly: the domain itself when another one took its place, and otherwise a fresh
      label in front of it. */
  lemma WrongName(domains: seq<bytes>, d: bytes) returns (name: bytes)
    requires d in domains && d != [] && !Proper(d)
    ensures name != [] && Find(Stored(domains), name).Matched?
    ensures !Longest(domains, name, Find(Stored(domains), name).base)
  {
    hide Find, Path, Stored, Aligned, Longest;
    EachIsStored(domains, d);
    if Stored(domains)[Path(d)] != d {
      name := d;
      HiddenIsWrong(domains, d);
    } else {
      name := Fresh(Longer(domains)) + d;
      FreshIsWrong(domains, d);
    }
  }

  lemma HiddenIsWrong(domains: seq<bytes>, d: bytes)
    requires d in domains && d != [] && Path(d) in Stored(domains) && Stored(domains)[Path(d)] != d
    ensures Find(Stored(domains), d).Matched? && !Longest(domains, d, Find(Stored(domains), d).base)
  {
    hide Path, Stored, Cut, LastDot, NoDotAfter, Before;
    var stored, path := Stored(domains), Path(d);
    PathHead(d);
    assert path[..|path|] == path;
    StoredIsSome(domains, path);
    NoneStoredEmpty(domains, path, d);
    DeepestIsLast(stored, path, |path|, |path|);
    assert Find(stored, d) == Matched(stored[path], Before(d, Cut(d, |path|)));
    assert Aligned(d, d);
  }

  /** A stored domain with the path of a text that is not empty is not empty either. */
  lemma NoneStoredEmpty(domains: seq<bytes>, path: seq<bytes>, d: bytes)
    requires path in Stored(domains) && d != [] && path == Path(d)
    ensures Stored(domains)[path] != []
  {
    hide Path, Stored, LastDot, NoDotAfter;
    StoredIsSome(domains, path);
    PathHead(d);
    PathOfNothing();
  }

  lemma FreshIsWrong(domains: seq<bytes>, d: bytes)
    requires d in domains && d != [] && !Proper(d) && Path(d) in Stored(domains) && Stored(domains)[Path(d)] == d
    ensures var name := Fresh(Longer(domains)) + d;
      Find(Stored(domains), name).Matched? && !Longest(domains, name, Find(Stored(domains), name).base)
  {
    hide Path, Stored, Find, Fresh, Longer, Aligned, Proper;
    var x := Fresh(Longer(domains));
    FreshIs(Longer(domains));
    FreshPath(domains, d, x);
    FoundAt(Stored(domains), x + d, d, x);
    NotAlignedBehind(d, x);
  }

  lemma FreshPath(domains: seq<bytes>, d: bytes, x: bytes)
    requires d != [] && !Proper(d) && x != [] && DOT !in x && |x| == Longer(domains)
    ensures Path(x + d) == Path(d) + [x] && Path(x + d) !in Stored(domains)
  {
    hide Path, Stored, Longer;
    assert d == [DOT] + d[1..] && x + d == x + [DOT] + d[1..];
    PathInFront(x, d[1..]);
    var path, n := Path(x + d), |Path(d)|;
    if path in Stored(domains) {
      var e := Stored(domains)[path];
      StoredIsSome(domains, path);
      LabelsAreShort(e, n);
      EachIsShorter(domains, e);
      assert false;
    }
  }

  lemma FoundAt(stored: map<seq<bytes>, bytes>, name: bytes, d: bytes, x: bytes)
    requires d != [] && Path(name) == Path(d) + [x] && Path(name) !in stored
    requires Path(d) in stored && stored[Path(d)] == d
    ensures Find(stored, name).Matched? && Find(stored, name).base == d
  {
    hide Path, Cut, Before;
    var path, n := Path(name), |Path(d)|;
    assert path[..n] == Path(d) && path[..n + 1] == path;
    assert n > 0 by { PathHead(d); }
    DeepestIsLast(stored, path, |path|, n);
  }

  lemma NotAlignedBehind(d: bytes, x: bytes)
    requires x != [] && x[|x| - 1] != DOT
    ensures !Aligned(d, x + d)
  {
    assert (x + d)[|x| - 1] == x[|x| - 1];
  }

  function Fresh(n: nat): bytes {
    seq(n, _ => 97)
  }

  lemma FreshIs(n: nat)
    ensures |Fresh(n)| == n && DOT !in Fresh(n) && forall i :: 0 <= i < n ==> Fresh(n)[i] == 97
  {
  }

  /** More than the length of every domain. */
  function Longer(domains: seq<bytes>): (n: nat)
    ensures n > 0
  {
    if domains == [] then 1 else Longer(domains[..|domains| - 1]) + |domains[|domains| - 1]|
  }

  lemma {:induction false} EachIsShorter(domains: seq<bytes>, d: bytes)
    requires d in domains
    ensures |d| < Longer(domains)
  {
    var n := |domains| - 1;
    if d != domains[n] {
      assert d in domains[..n];
      EachIsShorter(domains[..n], d);
    }
  }

  lemma {:induction false} LabelsAreShort(s: bytes, k: nat)
    requires k < |Path(s)|
    ensures |Path(s)[k]| <= |s|
    decreases |s|
  {
    hide NoDotAfter;
    if s != [] && LastDot(s) >= 0 && k > 0 {
      LabelsAreShort(s[..LastDot(s)], k - 1);
    }
  }

  /** A label in front of a text with a leading dot continues its path. */
  lemma {:induction false} PathInFront(x: bytes, rest: bytes)
    requires x != [] && DOT !in x
    ensures Path(x + [DOT] + rest) == Path([DOT] + rest) + [x]
    decreases |rest|
  {
    hide Path, LastDot, NoDotAfter, Last, Init;
    PathHead(x + [DOT] + rest);
    PathHead([DOT] + rest);
    LastOfBelow(x, rest);
    LastOfDotted(rest);
    if LastDot(rest) >= 0 {
      SplitAtDot(rest);
      PathInFront(x, Init(rest));
    } else {
      PathOfNothing();
      PathOfLabel(x);
    }
  }

  lemma LastOfDotted(rest: bytes)
    ensures Last([DOT] + rest) == Last(rest)
    ensures Init([DOT] + rest) == if LastDot(rest) < 0 then [] else [DOT] + Init(rest)
  {
    hide LastDot, NoDotAfter, Last, Init;
    LastOfBelow([], rest);
    assert [] + [DOT] + rest == [DOT] + rest;
    assert LastDot(rest) >= 0 ==> [] + [DOT] + Init(rest) == [DOT] + Init(rest);
  }

  lemma PathOfLabel(x: bytes)
    requires x != [] && DOT !in x
    ensures Path(x) == [x]
  {
    hide NoDotAfter;
    LastDotIs(x, -1);
  }

  // ----- leading dots and the names of dot-free labels -----

  /** What the parser returns for labels without dots in them. */
  ghost predicate FromLabels(name: bytes) {
    exists labels :: LabelsOf(labels, name)
  }

  predicate LabelsOf(labels: seq<bytes>, name: bytes) {
    labels != [] && ValidLabels(labels) && NoDots(labels) && name == NameText(labels)
  }

  /** No dot begins, ends or follows another. */
  predicate Spaced(s: bytes) {
    s != [] && s[0] != DOT && forall i :: 0 <= i < |s| && s[i] == DOT ==> i + 1 < |s| && s[i + 1] != DOT
  }

  function Reversed(labels: seq<bytes>): seq<bytes> {
    if labels == [] then [] else Reversed(labels[1..]) + [Lower(labels[0])]
  }

  lemma {:induction false} LowerKeepsDots(s: bytes)
    ensures forall i :: 0 <= i < |s| ==> (Lower(s)[i] == DOT <==> s[i] == DOT)
  {
    if s != [] {
      LowerKeepsDots(s[1..]);
      forall i | 0 <= i < |s| ensures Lower(s)[i] == DOT <==> s[i] == DOT {
        if i > 0 { assert Lower(s)[i] == Lower(s[1..])[i - 1]; }
      }
    }
  }

  lemma {:induction false} LabelsAreSpaced(labels: seq<bytes>)
    requires labels != [] && ValidLabels(labels) && NoDots(labels)
    ensures Spaced(Lower(Join(labels))) && Path(Lower(Join(labels))) == Reversed(labels)
    ensures |Reversed(labels)| == |labels|
  {
    hide Path, Spaced, Reversed;
    var x, rest := labels[0], labels[1..];
    assert x in labels;
    OneLabel(x);
    if rest == [] {
      assert labels == [x];
      ReversedIs(labels);
      assert Join(labels) == x;
    } else {
      assert forall part :: part in rest ==> part in labels;
      LabelsAreSpaced(rest);
      ReversedIs(labels);
      var d := Lower(Join(rest));
      LowerConcat(x + [DOT], Join(rest));
      LowerConcat(x, [DOT]);
      LowerDot();
      assert Join(labels) == x + [DOT] + Join(rest);
      assert Lower(Join(labels)) == Lower(x) + [DOT] + d;
      SpacedBelow(Lower(x), d);
      PathBelow(Lower(x), d);
    }
  }

  lemma LowerDot()
    ensures Lower([DOT]) == [DOT]
  {
    assert [DOT][1..] == [] && Lower([]) == [];
  }

  lemma ReversedIs(labels: seq<bytes>)
    requires labels != []
    ensures Reversed(labels) == Reversed(labels[1..]) + [Lower(labels[0])] && Reversed([]) == []
  {
  }

  lemma OneLabel(x: bytes)
    requires x != [] && DOT !in x
    ensures Spaced(Lower(x)) && DOT !in Lower(x) && Path(Lower(x)) == [Lower(x)]
  {
    hide Path;
    LowerKeepsDots(x);
    PathOfLabel(Lower(x));
  }

  lemma SpacedBelow(x: bytes, d: bytes)
    requires x != [] && DOT !in x && Spaced(d)
    ensures Spaced(x + [DOT] + d) && Proper(d)
  {
    var s := x + [DOT] + d;
    forall i | 0 <= i < |s| && s[i] == DOT ensures i + 1 < |s| && s[i + 1] != DOT {
      if i > |x| { assert d[i - |x| - 1] == DOT; }
    }
  }

  lemma {:induction false} ReversedPrefix(labels: seq<bytes>, j: nat)
    requires j <= |labels|
    ensures |Reversed(labels)| == |labels| && Reversed(labels)[..j] == Reversed(labels[|labels| - j..])
  {
    if j == |labels| {
      ReversedSize(labels);
      assert labels[0..] == labels;
    } else {
      ReversedPrefix(labels[1..], j);
      assert labels[1..][|labels| - 1 - j..] == labels[|labels| - j..];
    }
  }

  lemma {:induction false} ReversedSize(labels: seq<bytes>)
    ensures |Reversed(labels)| == |labels|
  {
    if labels != [] { ReversedSize(labels[1..]); }
  }

  lemma {:induction false} ReversedNonEmpty(labels: seq<bytes>)
    requires ValidLabels(labels)
    ensures [] !in Reversed(labels)
  {
    if labels != [] {
      assert labels[0] in labels;
      assert forall part :: part in labels[1..] ==> part in labels;
      ReversedNonEmpty(labels[1..]);
    }
  }

  /** A start of the path of such a name is the path of such a name. */
  lemma StartOfPath(labels: seq<bytes>, name: bytes, j: nat) returns (r: bytes)
    requires LabelsOf(labels, name) && 0 < j <= |Path(name)|
    ensures FromLabels(r) && Path(r) == Path(name)[..j] && [] !in Path(r)
  {
    hide Path, Reversed;
    LabelsAreSpaced(labels);
    ReversedPrefix(labels, j);
    var last := labels[|labels| - j..];
    assert forall part :: part in last ==> part in labels;
    LabelsAreSpaced(last);
    ReversedNonEmpty(last);
    r := NameText(last);
    assert LabelsOf(last, r);
  }

  lemma FromIsSpaced(name: bytes)
    requires FromLabels(name)
    ensures Spaced(name) && Proper(name)
  {
    hide Path, Reversed;
    var labels :| LabelsOf(labels, name);
    LabelsAreSpaced(labels);
  }

  /** Two dots in a row leave an empty label in the path. */
  lemma {:induction false} TwoDotsShow(q: bytes)
    requires q != [] && q[0] == DOT
    ensures [] in Path([DOT] + q)
    decreases |q|
  {
    hide Path, LastDot, NoDotAfter, Last, Init;
    var s := [DOT] + q;
    PathHead(s);
    LastOfDotted(q);
    LeadingDotLast(q);
    if LastDot(q) == 0 {
      OneDotPath();
      assert Init(q) == [];
    } else {
      FirstOfInit(q);
      TwoDotsShow(Init(q));
      assert [] in Path(Init(s));
    }
  }

  lemma LeadingDotLast(q: bytes)
    requires q != [] && q[0] == DOT
    ensures LastDot(q) >= 0 && (LastDot(q) == 0 ==> Init(q) == [])
  {
    hide NoDotAfter;
    NoLaterDot(q, |q|);
  }

  lemma FirstOfInit(q: bytes)
    requires q != [] && q[0] == DOT && LastDot(q) > 0
    ensures Init(q) != [] && Init(q)[0] == DOT && |Init(q)| < |q|
  {
    hide NoDotAfter;
  }

  lemma OneDotPath()
    ensures Path([DOT] + []) == [[]]
  {
    hide NoDotAfter, Path;
    assert [DOT] + [] == [DOT];
    LastDotIs([DOT], 0);
    PathHead([DOT]);
    PathOfNothing();
  }

  /** A domain with a leading dot on the path of such a name is that name behind a dot. */
  lemma DottedTwin(w: bytes, r: bytes)
    requires FromLabels(r) && Path(w) == Path(r) && [] !in Path(r) && w != [] && w != [DOT] && !Proper(w)
    ensures w == [DOT] + r
  {
    hide Path, FromLabels;
    FromIsSpaced(r);
    var q := w[1..];
    assert w == [DOT] + q;
    if Proper(q) {
      DottedPath(q);
      PathIsInjective(q, r);
    } else {
      TwoDotsShow(q);
    }
  }

  lemma DottedPath(rest: bytes)
    requires Proper(rest)
    ensures Path([DOT] + rest) == Path(rest)
  {
    hide Path;
    PathOfNothing();
    PathBelow([], rest);
    assert [] + [DOT] + rest == [DOT] + rest;
    assert Path(rest) + [] == Path(rest);
  }

  /** Every leading-dot domain that is such a name behind a dot gave its place in the tree to that name. */
  ghost predicate DotsHidden(domains: seq<bytes>) {
    forall r :: FromLabels(r) && [DOT] + r in domains ==> Path(r) in Stored(domains) && Stored(domains)[Path(r)] == r
  }

  /** For names of dot-free labels the tree agrees with the linear reading exactly when every domain that is such a
      name behind a dot is hidden by that name. */
  lemma AgreesOnLabelsIff(domains: seq<bytes>)
    requires forall d :: d in domains ==> d != [] && d != [DOT]
    ensures (forall name :: FromLabels(name) ==> Agrees(domains, name)) <==> DotsHidden(domains)
  {
    hide Agrees, Path, Stored, FromLabels;
    if DotsHidden(domains) {
      forall name | FromLabels(name) ensures Agrees(domains, name) {
        HiddenIsClean(domains, name);
        CleanAgrees(domains, name);
      }
    } else {
      var r :| FromLabels(r) && [DOT] + r in domains && !(Path(r) in Stored(domains) && Stored(domains)[Path(r)] == r);
      TwinIsWrong(domains, r);
    }
  }

  lemma CleanAgrees(domains: seq<bytes>, name: bytes)
    requires CleanOn(domains, name)
    ensures Agrees(domains, name)
  {
    hide Find, Stored, Aligned, Longest, CleanOn;
    FindIsLinearOn(domains, name);
  }

  lemma HiddenIsClean(domains: seq<bytes>, name: bytes)
    requires FromLabels(name) && DotsHidden(domains) && forall d :: d in domains ==> d != [] && d != [DOT]
    ensures CleanOn(domains, name)
  {
    hide Path, Stored, Aligned, FromLabels, Proper, DotsHidden;
    forall d | d in domains && Aligned(d, name) ensures Proper(d) {
      AlignedIsProper(d, name);
    }
    var path := Path(name);
    forall i {:trigger path[..i]} | 0 <= i <= |path| && path[..i] in Stored(domains)
      ensures Proper(Stored(domains)[path[..i]])
    {
      WinnerIsProper(domains, name, i);
    }
  }

  lemma AlignedIsProper(d: bytes, name: bytes)
    requires FromLabels(name) && Aligned(d, name) && d != []
    ensures Proper(d)
  {
    hide FromLabels;
    FromIsSpaced(name);
    if name != d {
      var at := |name| - |d|;
      assert name[at] == name[at..][0] == d[0];
      assert name[at - 1] == DOT;
    }
  }

  lemma WinnerIsProper(domains: seq<bytes>, name: bytes, i: nat)
    requires FromLabels(name) && DotsHidden(domains) && forall d :: d in domains ==> d != [] && d != [DOT]
    requires i <= |Path(name)| && Path(name)[..i] in Stored(domains)
    ensures Proper(Stored(domains)[Path(name)[..i]])
  {
    hide Path, Stored, Proper, LabelsOf;
    var w := Stored(domains)[Path(name)[..i]];
    StoredIsSome(domains, Path(name)[..i]);
    if i == 0 {
      assert Path(w) == [];
      SomePathOf(w);
    } else {
      var labels :| LabelsOf(labels, name);
      var r := StartOfPath(labels, name, i);
      FromIsSpaced(r);
      if !Proper(w) { DottedTwin(w, r); }
    }
  }

  lemma SomePathOf(w: bytes)
    requires w != []
    ensures Path(w) != []
  {
    hide Path;
    PathHead(w);
  }

  lemma TwinIsWrong(domains: seq<bytes>, r: bytes)
    requires FromLabels(r) && [DOT] + r in domains
    requires !(Path(r) in Stored(domains) && Stored(domains)[Path(r)] == r)
    ensures !Agrees(domains, r)
  {
    hide Path, Stored, Find, FromLabels, Longest, Aligned;
    FromIsSpaced(r);
    DottedPath(r);
    EachIsStored(domains, [DOT] + r);
    var w := Stored(domains)[Path(r)];
    StoredIsSome(domains, Path(r));
    NoneStoredEmpty(domains, Path(r), r);
    FoundWhole(domains, r);
    if Aligned(w, r) {
      AlignedIsProper(w, r);
      PathIsInjective(w, r);
    }
    assert !Longest(domains, r, w) by { NotLongest(domains, r, w); }
  }

  lemma NotLongest(domains: seq<bytes>, name: bytes, base: bytes)
    requires !Aligned(base, name)
    ensures !Longest(domains, name, base)
  {
    hide Aligned;
  }

  lemma FoundWhole(domains: seq<bytes>, name: bytes)
    requires name != [] && Path(name) in Stored(domains) && Stored(domains)[Path(name)] != []
    ensures Find(Stored(domains), name).Matched? && Find(Stored(domains), name).base == Stored(domains)[Path(name)]
  {
    hide Path, Stored, Cut, Before;
    var path := Path(name);
    SomePathOf(name);
    assert path[..|path|] == path;
    DeepestIsLast(Stored(domains), path, |path|, |path|);
  }

  /** The source sorts its domains, longer ones first. */
  predicate LongestFirst(domains: seq<bytes>) {
    forall i, j :: 0 <= i < j < |domains| ==> |domains[i]| >= |domains[j]|
  }

  lemma {:induction false} LastIsStored(domains: seq<bytes>, k: nat) returns (i: nat)
    requires k < |domains|
    ensures Path(domains[k]) in Stored(domains)
    ensures k <= i < |domains| && Stored(domains)[Path(domains[k])] == domains[i]
  {
    hide Path;
    var n := |domains| - 1;
    if Path(domains[k]) == Path(domains[n]) {
      i := n;
    } else {
      i := LastIsStored(domains[..n], k);
    }
  }

  /** In that order a leading-dot domain is hidden exactly when it is also allowed without the dot. */
  lemma HiddenIffAllowed(domains: seq<bytes>)
    requires LongestFirst(domains) && forall d :: d in domains ==> d != [] && d != [DOT]
    ensures DotsHidden(domains) <==> forall r :: FromLabels(r) && [DOT] + r in domains ==> r in domains
  {
    hide Path, Stored, FromLabels;
    forall r | FromLabels(r) && [DOT] + r in domains
      ensures Path(r) in Stored(domains) && Stored(domains)[Path(r)] == r <==> r in domains
    {
      TwinHidden(domains, r);
    }
  }

  lemma TwinHidden(domains: seq<bytes>, r: bytes)
    requires LongestFirst(domains) && forall d :: d in domains ==> d != [] && d != [DOT]
    requires FromLabels(r) && [DOT] + r in domains
    ensures Path(r) in Stored(domains) && Stored(domains)[Path(r)] == r <==> r in domains
  {
    hide Path, Stored, Proper, LabelsOf;
    if Path(r) in Stored(domains) { StoredIsSome(domains, Path(r)); }
    if r in domains {
      FromIsSpaced(r);
      var k :| 0 <= k < |domains| && domains[k] == r;
      var i := LastIsStored(domains, k);
      var w := domains[i];
      StoredIsSome(domains, Path(r));
      if Proper(w) {
        PathIsInjective(w, r);
      } else {
        var labels :| LabelsOf(labels, r);
        NoEmptyLabels(labels, r);
        DottedTwin(w, r);
        assert false;
      }
    }
  }

  lemma NoEmptyLabels(labels: seq<bytes>, r: bytes)
    requires LabelsOf(labels, r)
    ensures [] !in Path(r)
  {
    hide Path;
    LabelsAreSpaced(labels);
    ReversedNonEmpty(labels);
  }

  /** The parser takes any octet inside a label: with a dot in one, a hidden domain is missed after all. */
  lemma DotInsideLabel()
    ensures var domains := [[DOT, 97], [97]];
      && LongestFirst(domains) && ValidLabels([[DOT, 97]]) && NameText([[DOT, 97]]) == [DOT, 97]
      && Aligned([DOT, 97], [DOT, 97]) && !Agrees(domains, [DOT, 97])
  {
    hide Path, Stored, Agrees;
    var d, domains := [DOT, 97], [[DOT, 97], [97]];
    assert d[1..] == [97] && [97][1..] == [] && Lower([]) == [] && Lower([97]) == [97] && Lower(d) == d;
    DottedPath([97]);
    assert [DOT] + [97] == d;
    var i := LastIsStored(domains, 1);
    HiddenIsWrong(domains, d);
    assert !Agrees(domains, d) by { WrongBase(domains, d); }
  }

  lemma WrongBase(domains: seq<bytes>, name: bytes)
    requires Find(Stored(domains), name).Matched? && !Longest(domains, name, Find(Stored(domains), name).base)
    ensures !Agrees(domains, name)
  {
    hide Find, Stored, Longest;
  }
}
