/**
 The parsed document and the selection walk over it (`visitNodes`,
 `sliceContains` and `tagsToRead` in main.go): which nodes of the HTML tree
 take part in the script, and in what order.
 */
module Document {

  /** A node of the parsed HTML tree: its node name as the HTML library
      reports it (`"code"`, `"#comment"`, `"h1"`, `"#text"`, `"p"`, ...), its
      outer HTML, and its children in document order. */
  datatype Node = Node(name: string, text: string, children: seq<Node>)

  /** The node names the walk keeps. */
  const TagsToRead: seq<string> := ["code", "#comment", "h1", "h2", "h3"]

  /** `sliceContains`: a linear search for `val`. */
  function SliceContains(slice: seq<string>, val: string): (found: bool)
    ensures found <==> val in slice
  {
    if |slice| == 0 then false
    else if slice[0] == val then true
    else
      var rest := SliceContains(slice[1..], val);
      assert slice == [slice[0]] + slice[1..];
      rest
  }

  /** Whether the walk keeps a node named `name`, for the list of kept names
      `tags` (the source's package-level `tagsToRead`, passed explicitly). */
  predicate Selectable(tags: seq<string>, name: string) {
    SliceContains(tags, name)
  }

  /** `visitNodes(dst, src)`: go through the children of `src` in order,
      appending a child whose name is selectable to `dst` whole, and walking
      into any other child. */
  function VisitNodes(tags: seq<string>, dst: seq<Node>, src: Node): seq<Node>
    decreases src
  {
    VisitChildren(tags, dst, src.children)
  }

  /** The loop of `visitNodes` over the remaining children `kids`. */
  function VisitChildren(tags: seq<string>, dst: seq<Node>, kids: seq<Node>): seq<Node>
    decreases kids
  {
    if |kids| == 0 then dst
    else
      var s := kids[0];
      var next := if Selectable(tags, s.name) then dst + [s] else VisitNodes(tags, dst, s);
      VisitChildren(tags, next, kids[1..])
  }

  /** The nodes of the document under `root` that take part in the script. */
  function Select(root: Node): seq<Node> {
    VisitNodes(TagsToRead, [], root)
  }

  /** Every node of a forest in pre-order (a node, then its subtrees, then its
      right siblings), each paired with whether it has an ancestor with a
      selectable name, `covered` telling that for the forest's roots. */
  ghost function Preorder(tags: seq<string>, nodes: seq<Node>, covered: bool): (entries: seq<(Node, bool)>)
    ensures |nodes| > 0 ==> |entries| > 0 && entries[0] == (nodes[0], covered)
    ensures covered ==> forall k | 0 <= k < |entries| :: entries[k].1
    decreases nodes
  {
    if |nodes| == 0 then []
    else
      var n := nodes[0];
      [(n, covered)] + Preorder(tags, n.children, covered || Selectable(tags, n.name)) + Preorder(tags, nodes[1..], covered)
  }

  /** The entries that have a selectable name and no selectable ancestor. */
  ghost function Outermost(tags: seq<string>, entries: seq<(Node, bool)>): seq<Node> {
    if |entries| == 0 then []
    else
      (if !entries[0].1 && Selectable(tags, entries[0].0.name) then [entries[0].0] else [])
      + Outermost(tags, entries[1..])
  }

  lemma {:induction false} OutermostAppend(tags: seq<string>, a: seq<(Node, bool)>, b: seq<(Node, bool)>)
    ensures Outermost(tags, a + b) == Outermost(tags, a) + Outermost(tags, b)
    decreases |a|
  {
    if |a| > 0 {
      var head := if !a[0].1 && Selectable(tags, a[0].0.name) then [a[0].0] else [];
      assert (a + b)[0] == a[0];
      assert (a + b)[1..] == a[1..] + b;
      assert Outermost(tags, a + b) == head + Outermost(tags, a[1..] + b);
      OutermostAppend(tags, a[1..], b);
      assert head + (Outermost(tags, a[1..]) + Outermost(tags, b)) == (head + Outermost(tags, a[1..])) + Outermost(tags, b);
    } else {
      assert a + b == b;
    }
  }

  lemma {:induction false} OutermostCovered(tags: seq<string>, entries: seq<(Node, bool)>)
    requires forall k | 0 <= k < |entries| :: entries[k].1
    ensures Outermost(tags, entries) == []
    decreases |entries|
  {
    if |entries| > 0 {
      OutermostCovered(tags, entries[1..]);
    }
  }

  /** The reference list of a run of siblings, by its first node. */
  lemma OutermostFirst(tags: seq<string>, kids: seq<Node>)
    requires |kids| > 0
    ensures var s := kids[0];
            var rest := Outermost(tags, Preorder(tags, kids[1..], false));
            Outermost(tags, Preorder(tags, kids, false))
              == if Selectable(tags, s.name) then [s] + rest
                 else Outermost(tags, Preorder(tags, s.children, false)) + rest
  {
    var s := kids[0];
    var inner := Preorder(tags, s.children, Selectable(tags, s.name));
    var rest := Preorder(tags, kids[1..], false);
    assert Preorder(tags, kids, false) == [(s, false)] + inner + rest;
    OutermostAppend(tags, [(s, false)] + inner, rest);
    OutermostAppend(tags, [(s, false)], inner);
    if Selectable(tags, s.name) {
      OutermostCovered(tags, inner);
    }
  }

  /** The walk over a run of siblings, by its first node. */
  lemma VisitChildrenFirst(tags: seq<string>, dst: seq<Node>, kids: seq<Node>)
    requires |kids| > 0
    ensures var s := kids[0];
            VisitChildren(tags, dst, kids)
              == VisitChildren(tags, if Selectable(tags, s.name) then dst + [s] else VisitNodes(tags, dst, s), kids[1..])
  {
  }

  /** The walk over a run of siblings appends exactly the nodes that a full
      pre-order traversal meets with a selectable name and no selectable
      ancestor, in the order it meets them. */
  lemma {:induction false} VisitChildrenIsOutermost(tags: seq<string>, dst: seq<Node>, kids: seq<Node>)
    ensures VisitChildren(tags, dst, kids) == dst + Outermost(tags, Preorder(tags, kids, false))
    decreases kids
  {
    if |kids| == 0 {
      assert dst + [] == dst;
    } else {
      var s := kids[0];
      var rest := Outermost(tags, Preorder(tags, kids[1..], false));
      OutermostFirst(tags, kids);
      VisitChildrenFirst(tags, dst, kids);
      if Selectable(tags, s.name) {
        SelectedFirst(tags, dst, kids, rest);
      } else {
        SearchedFirst(tags, dst, kids, Outermost(tags, Preorder(tags, s.children, false)), rest);
      }
    }
  }

  lemma {:induction false} SelectedFirst(tags: seq<string>, dst: seq<Node>, kids: seq<Node>, rest: seq<Node>)
    requires |kids| > 0
    requires rest == Outermost(tags, Preorder(tags, kids[1..], false))
    ensures VisitChildren(tags, dst + [kids[0]], kids[1..]) == dst + ([kids[0]] + rest)
    decreases kids, 0
  {
    VisitChildrenIsOutermost(tags, dst + [kids[0]], kids[1..]);
    assert dst + [kids[0]] + rest == dst + ([kids[0]] + rest);
  }

  lemma {:induction false} SearchedFirst(tags: seq<string>, dst: seq<Node>, kids: seq<Node>, inner: seq<Node>, rest: seq<Node>)
    requires |kids| > 0
    requires inner == Outermost(tags, Preorder(tags, kids[0].children, false))
    requires rest == Outermost(tags, Preorder(tags, kids[1..], false))
    ensures VisitChildren(tags, VisitNodes(tags, dst, kids[0]), kids[1..]) == dst + (inner + rest)
    decreases kids, 0
  {
    var mid := VisitNodes(tags, dst, kids[0]);
    VisitChildrenIsOutermost(tags, dst, kids[0].children);
    assert mid == dst + inner;
    VisitChildrenIsOutermost(tags, mid, kids[1..]);
    assert (dst + inner) + rest == dst + (inner + rest);
  }

  lemma {:induction false} OutermostSelectable(tags: seq<string>, entries: seq<(Node, bool)>)
    ensures forall k | 0 <= k < |Outermost(tags, entries)| :: Selectable(tags, Outermost(tags, entries)[k].name)
    decreases |entries|
  {
    if |entries| > 0 {
      var head: seq<Node> := if !entries[0].1 && Selectable(tags, entries[0].0.name) then [entries[0].0] else [];
      var tail: seq<Node> := Outermost(tags, entries[1..]);
      OutermostSelectable(tags, entries[1..]);
      assert Outermost(tags, entries) == head + tail;
      forall k | 0 <= k < |head + tail|
        ensures Selectable(tags, (head + tail)[k].name)
      {
        if k >= |head| {
          assert (head + tail)[k] == tail[k - |head|];
        }
      }
    }
  }

  /** What was in `dst` stays in front, and everything the walk appends has a
      selectable name. */
  lemma VisitNodesAppends(tags: seq<string>, dst: seq<Node>, src: Node)
    ensures var r := VisitNodes(tags, dst, src);
            |dst| <= |r| && r[..|dst|] == dst
            && forall k | |dst| <= k < |r| :: Selectable(tags, r[k].name)
  {
    var out := Outermost(tags, Preorder(tags, src.children, false));
    VisitChildrenIsOutermost(tags, dst, src.children);
    OutermostSelectable(tags, Preorder(tags, src.children, false));
    assert forall k | |dst| <= k < |dst + out| :: (dst + out)[k] == out[k - |dst|];
  }

  /** The selection is the pre-order list of the nodes below the root that
      have a selectable name and no selectable ancestor: a selected node is
      kept whole, never descended into, and every other node is searched. */
  lemma SelectIsOutermost(root: Node)
    ensures Select(root) == Outermost(TagsToRead, Preorder(TagsToRead, root.children, false))
  {
    VisitChildrenIsOutermost(TagsToRead, [], root.children);
  }
}
