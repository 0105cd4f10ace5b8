/**
 * Table-of-contents extraction for the whitepaper page: the text of a rich-text
 * node tree, and the two-level outline of its `h2` and `h3` headings.
 */
module Headings {

  import opened Optional
  import opened Slug

  /**
   * A rich-text node as far as the extraction reads it: its `type`, the `text`
   * of a text node, the `tag` of a heading node, and `children` when it is an
   * array.
   */
  datatype Node = Node(
    nodeType: string,
    text: Option<string>,
    tag: Option<string>,
    children: Children)

  /** A node's `children`: missing (or not an array), or an array of nodes. */
  datatype Children = NoChildren | Children(nodes: seq<Node>)

  /** The editor state: a possibly missing `root` node. */
  datatype EditorState = EditorState(root: Option<Node>)

  /** A heading level: `2 | 3`. */
  type Level = l: int | l == 2 || l == 3 witness 2

  /**
   * `HeadingNode`: `children` is present (`Some`) on an `h2` entry and absent
   * on an `h3` entry.
   */
  datatype Heading = Heading(id: string, text: string, level: Level, children: Option<seq<Heading>>)

  /** The concatenation of a list of strings: `.join('')`. */
  function Join(parts: seq<string>): string {
    if parts == [] then "" else parts[0] + Join(parts[1..])
  }

  /**
   * `extractTextFromNode`: a text node gives its text (or `''`); any other
   * node gives its children's texts joined in order (or `''` without children).
   */
  function ExtractText(node: Node): string
    decreases node
  {
    if node.nodeType == "text" then node.text.GetOr("")
    else match node.children
      case Children(cs) => Join(seq(|cs|, i requires 0 <= i < |cs| => ExtractText(cs[i])))
      case NoChildren => ""
  }

  /** The texts of a list of nodes: `.map(extractTextFromNode)`. */
  function Texts(nodes: seq<Node>): (r: seq<string>)
    ensures |r| == |nodes|
  {
    seq(|nodes|, i requires 0 <= i < |nodes| => ExtractText(nodes[i]))
  }

  lemma {:induction false} JoinConcat(a: seq<string>, b: seq<string>)
    ensures Join(a + b) == Join(a) + Join(b)
    decreases |a|
  {
    if a == [] {
      assert a + b == b;
    } else {
      assert (a + b)[0] == a[0] && (a + b)[1..] == a[1..] + b;
      JoinConcat(a[1..], b);
    }
  }

  /**
   * The text of a non-text node is the in-order concatenation of its
   * children's texts: splitting the children splits the text the same way.
   */
  lemma ExtractTextSplits(kind: string, text: Option<string>, tag: Option<string>, a: seq<Node>, b: seq<Node>)
    requires kind != "text"
    ensures ExtractText(Node(kind, text, tag, Children(a + b)))
         == ExtractText(Node(kind, text, tag, Children(a))) + ExtractText(Node(kind, text, tag, Children(b)))
  {
    assert Texts(a + b) == Texts(a) + Texts(b);
    JoinConcat(Texts(a), Texts(b));
  }

  // ---------------------------------------------------------------------------
  // The outline, defined declaratively: each h2 among the top-level nodes
  // becomes an entry whose children are the h3 nodes that follow it up to the
  // next h2; h3 nodes before the first h2, and every other node, are ignored.

  predicate IsH2(n: Node) {
    n.nodeType == "heading" && n.tag == Some("h2")
  }

  predicate IsH3(n: Node) {
    n.nodeType == "heading" && n.tag == Some("h3")
  }

  /** The entry for an `h2` node with the given sub-entries. */
  function Section(n: Node, subs: seq<Heading>): Heading {
    Heading(Slugify(ExtractText(n)), ExtractText(n), 2, Some(subs))
  }

  /** The entry for an `h3` node. */
  function Subsection(n: Node): Heading {
    Heading(Slugify(ExtractText(n)), ExtractText(n), 3, None)
  }

  /** An `h3` entry: level 3 and no children of its own. */
  predicate IsLeafEntry(h: Heading) {
    h.level == 3 && h.children == None
  }

  /** An `h2` entry: level 2, and its children are all `h3` entries. */
  predicate IsSectionEntry(h: Heading) {
    h.level == 2 && h.children.Some?
    && forall k :: 0 <= k < |h.children.value| ==> IsLeafEntry(h.children.value[k])
  }

  /** The `h3` entries for the nodes before the first `h2` of `nodes`. */
  function H3Run(nodes: seq<Node>): (r: seq<Heading>)
    ensures forall k :: 0 <= k < |r| ==> IsLeafEntry(r[k])
  {
    if nodes == [] || IsH2(nodes[0]) then []
    else
      var here := if IsH3(nodes[0]) then [Subsection(nodes[0])] else [];
      var rest := H3Run(nodes[1..]);
      assert forall k :: 0 <= k < |here| ==> IsLeafEntry(here[k]);
      here + rest
  }

  /** The two-level outline of a list of top-level nodes. */
  function Outline(nodes: seq<Node>): (r: seq<Heading>)
    ensures forall k :: 0 <= k < |r| ==> IsSectionEntry(r[k])
  {
    if nodes == [] then []
    else if IsH2(nodes[0]) then
      var here := Section(nodes[0], H3Run(nodes[1..]));
      var rest := Outline(nodes[1..]);
      assert IsSectionEntry(here);
      [here] + rest
    else Outline(nodes[1..])
  }

  /** The `h2` nodes of a list, in order. */
  function H2Nodes(nodes: seq<Node>): seq<Node> {
    if nodes == [] then []
    else (if IsH2(nodes[0]) then [nodes[0]] else []) + H2Nodes(nodes[1..])
  }

  predicate HasH2(nodes: seq<Node>) {
    exists k :: 0 <= k < |nodes| && IsH2(nodes[k])
  }

  /** Adds an `h3` entry to the children of the last `h2` entry. */
  function AppendToLast(hs: seq<Heading>, sub: Heading): (r: seq<Heading>)
    requires hs != [] && hs[|hs| - 1].children.Some?
    ensures |r| == |hs| && r[..|r| - 1] == hs[..|hs| - 1]
  {
    var last := hs[|hs| - 1];
    hs[..|hs| - 1] + [last.(children := Some(last.children.value + [sub]))]
  }

  // ---------------------------------------------------------------------------
  // Properties of the outline.

  /** The outline is empty exactly when there is no `h2` node. */
  lemma {:induction false} OutlineEmptyIff(nodes: seq<Node>)
    ensures Outline(nodes) == [] <==> !HasH2(nodes)
    decreases |nodes|
  {
    if nodes != [] && !IsH2(nodes[0]) {
      OutlineEmptyIff(nodes[1..]);
      if HasH2(nodes[1..]) {
        var k :| 0 <= k < |nodes[1..]| && IsH2(nodes[1..][k]);
        assert IsH2(nodes[k + 1]);
      }
      if HasH2(nodes) {
        var k :| 0 <= k < |nodes| && IsH2(nodes[k]);
        assert k > 0 && IsH2(nodes[1..][k - 1]);
      }
    }
  }

  lemma {:induction false} H3RunSnoc(p: seq<Node>, n: Node)
    ensures H3Run(p + [n]) == if !HasH2(p) && IsH3(n) then H3Run(p) + [Subsection(n)] else H3Run(p)
    decreases |p|
  {
    if p == [] {
      assert p + [n] == [n];
      assert [n][1..] == [];
    } else {
      assert (p + [n])[0] == p[0] && (p + [n])[1..] == p[1..] + [n];
      if !IsH2(p[0]) {
        H3RunSnoc(p[1..], n);
        HasH2Tail(p);
      } else {
        assert HasH2(p) by { assert IsH2(p[0]); }
      }
    }
  }

  lemma HasH2Tail(p: seq<Node>)
    requires p != [] && !IsH2(p[0])
    ensures HasH2(p) == HasH2(p[1..])
  {
    if HasH2(p[1..]) {
      var k :| 0 <= k < |p[1..]| && IsH2(p[1..][k]);
      assert IsH2(p[k + 1]);
    }
    if HasH2(p) {
      var k :| 0 <= k < |p| && IsH2(p[k]);
      assert IsH2(p[1..][k - 1]);
    }
  }

  /**
   * The outline grows one node at a time: an `h2` opens a new entry with no
   * children; an `h3` is appended to the children of the most recent `h2`, or
   * dropped when there is none yet; any other node changes nothing.
   */
  lemma {:induction false} OutlineSnoc(p: seq<Node>, n: Node)
    ensures Outline(p + [n]) ==
      if IsH2(n) then Outline(p) + [Section(n, [])]
      else if IsH3(n) && Outline(p) != [] then AppendToLast(Outline(p), Subsection(n))
      else Outline(p)
    decreases |p|
  {
    if p == [] {
      assert p + [n] == [n];
      assert [n][1..] == [];
    } else {
      var q := p[1..];
      assert (p + [n])[0] == p[0] && (p + [n])[1..] == q + [n];
      OutlineSnoc(q, n);
      if IsH2(p[0]) {
        var h := p[0];
        assert p == [h] + q && p + [n] == [h] + (q + [n]);
        H3RunSnoc(q, n);
        OutlineEmptyIff(q);
        OutlineCons(h, q);
        OutlineCons(h, q + [n]);
        if IsH3(n) && !IsH2(n) {
          if Outline(q) == [] {
            AppendH3ToFirst(h, q, n);
          } else {
            AppendToLastCons(Section(h, H3Run(q)), Outline(q), Subsection(n));
          }
        }
      }
    }
  }

  lemma OutlineCons(h: Node, r: seq<Node>)
    requires IsH2(h)
    ensures Outline([h] + r) == [Section(h, H3Run(r))] + Outline(r)
  {
    assert ([h] + r)[0] == h && ([h] + r)[1..] == r;
  }

  /** An `h3` after the only `h2` so far joins that section. */
  lemma AppendH3ToFirst(h: Node, q: seq<Node>, n: Node)
    requires H3Run(q + [n]) == H3Run(q) + [Subsection(n)]
    ensures [Section(h, H3Run(q + [n]))] == AppendToLast([Section(h, H3Run(q))], Subsection(n))
  {
  }

  /** Replacing the last entry in place is `AppendToLast`. */
  lemma UpdateLastIsAppend(hs: seq<Heading>, sub: Heading)
    requires hs != [] && hs[|hs| - 1].children.Some?
    ensures hs[|hs| - 1 := hs[|hs| - 1].(children := Some(hs[|hs| - 1].children.value + [sub]))]
      == AppendToLast(hs, sub)
  {
  }

  lemma AppendToLastCons(head: Heading, hs: seq<Heading>, sub: Heading)
    requires hs != [] && hs[|hs| - 1].children.Some?
    ensures AppendToLast([head] + hs, sub) == [head] + AppendToLast(hs, sub)
  {
    assert ([head] + hs)[..|hs|] == [head] + hs[..|hs| - 1];
  }

  /**
   * One entry per `h2` node, in document order: entry k is the section built
   * from the k-th `h2` node, so it has level 2, that node's text, and the slug
   * of that text as its id.
   */
  lemma {:induction false} OutlineSections(nodes: seq<Node>)
    ensures |Outline(nodes)| == |H2Nodes(nodes)|
    ensures forall k :: 0 <= k < |Outline(nodes)| ==>
      Outline(nodes)[k] == Section(H2Nodes(nodes)[k], Outline(nodes)[k].children.value)
    decreases |nodes|
  {
    if nodes != [] {
      var rest := nodes[1..];
      OutlineSections(rest);
      if IsH2(nodes[0]) {
        assert Outline(nodes) == [Section(nodes[0], H3Run(rest))] + Outline(rest);
        assert H2Nodes(nodes) == [nodes[0]] + H2Nodes(rest);
      } else {
        assert Outline(nodes) == Outline(rest);
        assert H2Nodes(nodes) == H2Nodes(rest);
      }
    }
  }

  /** Nodes before the first `h2`, `h3` nodes among them included, contribute nothing. */
  lemma {:induction false} LeadingNodesIgnored(a: seq<Node>, b: seq<Node>)
    requires !HasH2(a)
    ensures Outline(a + b) == Outline(b)
    decreases |a|
  {
    if a == [] {
      assert a + b == b;
    } else {
      assert !IsH2(a[0]);
      assert (a + b)[0] == a[0] && (a + b)[1..] == a[1..] + b;
      LeadingNodesIgnored(a[1..], b);
    }
  }

  lemma {:induction false} H3RunIgnoresNode(a: seq<Node>, n: Node, b: seq<Node>)
    requires !IsH2(n) && !IsH3(n)
    ensures H3Run(a + [n] + b) == H3Run(a + b)
    decreases |a|
  {
    if a == [] {
      assert a + [n] + b == [n] + b && ([n] + b)[1..] == b && a + b == b;
    } else {
      assert (a + [n] + b)[0] == a[0] && (a + [n] + b)[1..] == a[1..] + [n] + b;
      assert (a + b)[0] == a[0] && (a + b)[1..] == a[1..] + b;
      H3RunIgnoresNode(a[1..], n, b);
    }
  }

  /**
   * A node that is neither an `h2` nor an `h3` heading contributes nothing,
   * whatever it contains: paragraphs, lists, `h4` headings, and every heading
   * nested inside such a node.
   */
  lemma {:induction false} OtherNodeIgnored(a: seq<Node>, n: Node, b: seq<Node>)
    requires !IsH2(n) && !IsH3(n)
    ensures Outline(a + [n] + b) == Outline(a + b)
    decreases |a|
  {
    if a == [] {
      assert a + [n] + b == [n] + b && ([n] + b)[1..] == b && a + b == b;
    } else {
      assert (a + [n] + b)[0] == a[0] && (a + [n] + b)[1..] == a[1..] + [n] + b;
      assert (a + b)[0] == a[0] && (a + b)[1..] == a[1..] + b;
      OtherNodeIgnored(a[1..], n, b);
      if IsH2(a[0]) {
        H3RunIgnoresNode(a[1..], n, b);
      }
    }
  }

  // ---------------------------------------------------------------------------
  // extractHeadings

  /** `lexicalData?.root?.children`, or no nodes when any link is missing. */
  function TopLevelNodes(data: Option<EditorState>): seq<Node> {
    match data
    case None => []
    case Some(state) =>
      match state.root
      case None => []
      case Some(root) =>
        match root.children
        case NoChildren => []
        case Children(nodes) => nodes
  }

  /**
   * `extractHeadings`: one pass over the root's direct children, keeping the
   * most recent `h2` entry (always the last entry of `headings`) to attach
   * `h3` entries to.
   */
  method ExtractHeadings(data: Option<EditorState>) returns (headings: seq<Heading>)
    ensures headings == Outline(TopLevelNodes(data))
    ensures data.None? || data.value.root.None? || data.value.root.value.children.NoChildren?
      ==> headings == []
  {
    if data.None? || data.value.root.None? || data.value.root.value.children.NoChildren? {
      return [];
    }
    var nodes := data.value.root.value.children.nodes;
    headings := [];
    var haveCurrentH2 := false;
    for i := 0 to |nodes|
      invariant headings == Outline(nodes[..i])
      invariant haveCurrentH2 <==> headings != []
    {
      var node := nodes[i];
      OutlineSnoc(nodes[..i], node);
      assert nodes[..i + 1] == nodes[..i] + [node];
      if node.nodeType == "heading" {
        var text := ExtractText(node);
        var id := Slugify(text);
        if node.tag == Some("h2") {
          headings := headings + [Heading(id, text, 2, Some([]))];
          haveCurrentH2 := true;
        } else if node.tag == Some("h3") && haveCurrentH2 {
          var current := headings[|headings| - 1];
          assert IsSectionEntry(current);
          UpdateLastIsAppend(headings, Subsection(node));
          headings := headings[|headings| - 1 := current.(children := Some(current.children.value + [Heading(id, text, 3, None)]))];
        }
      }
    }
    assert nodes[..|nodes|] == nodes;
  }
}
