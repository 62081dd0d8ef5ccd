/** The namespace pass `applyNS` of create-element.js, on node values.

    `ApplyNSTree(v, ns, force)` is the node `v` after `applyNS(v, ns, force)`:
    the node's own namespace becomes `ns`, and the pass descends into every
    child that is a tagged virtual node and either has no namespace yet or is
    reached under `force`. Below a `foreignObject` element (section 23.3 of
    SVG 1.1 Second Edition) the pass goes on with no namespace and with
    `force` set.

    The pass is then characterised node by node, along paths from the root
    (`ApplyNSAt`), and the properties the builder relies on follow from it. */
module NamespacePass {
  import opened JsValues

  const ForeignObject: string := "foreignObject"

  function ApplyNSTree(v: VNode, ns: Option<string>, force: bool): (r: VNode)
    decreases v
  {
    var escapes := v.tag == Some(ForeignObject);
    var innerNs := if escapes then None else ns;
    var innerForce := if escapes then true else force;
    v.(ns := ns, children := ApplyNSChildren(v.children, innerNs, innerForce))
  }

  /** The loop over `vnode.children`: only an array is walked. */
  function ApplyNSChildren(c: Value, ns: Option<string>, force: bool): (r: Value)
    ensures r.Arr? == c.Arr? && (!c.Arr? ==> r == c)
    ensures c.Arr? ==> (|r.elems| == |c.elems| &&
      forall i :: 0 <= i < |c.elems| ==> r.elems[i] == ApplyNSChild(c.elems[i], ns, force))
    decreases c
  {
    if c.Arr? then
      Arr(seq(|c.elems|, i requires 0 <= i < |c.elems| => ApplyNSChild(c.elems[i], ns, force)))
    else c
  }

  /** One child: descended into when it is a tagged node whose namespace is
      unset or when the pass is forced; left as it is otherwise. */
  predicate Descends(x: Value, force: bool) {
    x.Node? && x.node.tag.Some? && (x.node.ns.None? || force)
  }

  function ApplyNSChild(x: Value, ns: Option<string>, force: bool): (r: Value)
    decreases x
  {
    if Descends(x, force) then Node(ApplyNSTree(x.node, ns, force)) else x
  }

  // ---------------------------------------------------------------------
  // Everything except namespaces

  /** The node with every namespace the pass could reach cleared. */
  function EraseNs(v: VNode): (r: VNode)
    decreases v
  {
    v.(ns := None, children := EraseChildren(v.children))
  }

  function EraseChildren(c: Value): (r: Value)
    ensures r.Arr? == c.Arr? && (!c.Arr? ==> r == c)
    ensures c.Arr? ==> (|r.elems| == |c.elems| &&
      forall i :: 0 <= i < |c.elems| ==> r.elems[i] == EraseChild(c.elems[i]))
    decreases c
  {
    if c.Arr? then Arr(seq(|c.elems|, i requires 0 <= i < |c.elems| => EraseChild(c.elems[i])))
    else c
  }

  function EraseChild(x: Value): (r: Value)
    decreases x
  {
    if x.Node? then Node(EraseNs(x.node)) else x
  }

  /** The pass changes namespaces and nothing else: tags, data, texts, the
      set and order of children are those of the input. */
  lemma {:induction false} ApplyNSKeepsShape(v: VNode, ns: Option<string>, force: bool)
    ensures EraseNs(ApplyNSTree(v, ns, force)) == EraseNs(v)
    ensures ApplyNSTree(v, ns, force).tag == v.tag
    ensures ApplyNSTree(v, ns, force).ns == ns
    decreases v
  {
    var escapes := v.tag == Some(ForeignObject);
    var innerNs := if escapes then None else ns;
    var innerForce := if escapes then true else force;
    var c := v.children;
    if c.Arr? {
      var after := ApplyNSChildren(c, innerNs, innerForce);
      forall i | 0 <= i < |c.elems|
        ensures EraseChild(after.elems[i]) == EraseChild(c.elems[i])
      {
        if Descends(c.elems[i], innerForce) {
          ApplyNSKeepsShape(c.elems[i].node, innerNs, innerForce);
        }
      }
      assert EraseChildren(after) == EraseChildren(c);
    }
  }

  // ---------------------------------------------------------------------
  // Paths: a node-by-node reference description of the pass

  /** The nodes met when walking from `v` along the child indices `p`; the
      walk stops early at an index that does not name a child node. */
  function Chain(v: VNode, p: seq<nat>): (c: seq<VNode>)
    ensures 1 <= |c| <= |p| + 1 && c[0] == v
    decreases |p|
  {
    if p != [] && v.children.Arr? && p[0] < |v.children.elems| && v.children.elems[p[0]].Node? then
      [v] + Chain(v.children.elems[p[0]].node, p[1..])
    else [v]
  }

  /** `p` leads from `v` to a node. */
  predicate ValidPath(v: VNode, p: seq<nat>) {
    |Chain(v, p)| == |p| + 1
  }

  /** Some node strictly above position `k` of the chain is a `foreignObject`. */
  predicate Escaped(chain: seq<VNode>, k: int) {
    exists l :: 0 <= l < k && l < |chain| && chain[l].tag == Some(ForeignObject)
  }

  /** The pass started at `chain[0]` reaches the last node of the chain: every
      node below the root is tagged, and has no namespace of its own unless
      the pass is forced there (by the caller or by an escaping ancestor). */
  predicate Reached(chain: seq<VNode>, force: bool) {
    forall k :: 1 <= k < |chain| ==>
      chain[k].tag.Some? && (chain[k].ns.None? || force || Escaped(chain, k))
  }

  /** The namespace a reached node receives. */
  function ExpectedNs(chain: seq<VNode>, ns: Option<string>): (r: Option<string>) {
    if Escaped(chain, |chain| - 1) then None else ns
  }

  lemma EscapedCons(v: VNode, c: seq<VNode>, k: nat)
    requires k <= |c|
    ensures Escaped([v] + c, k + 1) <==> (v.tag == Some(ForeignObject) || Escaped(c, k))
  {
    var cc := [v] + c;
    if Escaped(cc, k + 1) && v.tag != Some(ForeignObject) {
      var l :| 0 <= l < k + 1 && l < |cc| && cc[l].tag == Some(ForeignObject);
      assert c[l - 1] == cc[l];
    }
    if v.tag == Some(ForeignObject) {
      assert cc[0] == v;
    }
    if Escaped(c, k) {
      var l :| 0 <= l < k && l < |c| && c[l].tag == Some(ForeignObject);
      assert cc[l + 1] == c[l];
    }
  }

  lemma ReachedCons(v: VNode, c: seq<VNode>, force: bool)
    requires 1 <= |c|
    ensures Reached([v] + c, force) <==>
      (c[0].tag.Some? && (c[0].ns.None? || force || v.tag == Some(ForeignObject))
       && Reached(c, force || v.tag == Some(ForeignObject)))
  {
    var cc := [v] + c;
    var fo := v.tag == Some(ForeignObject);
    EscapedCons(v, c, 0);
    if Reached(cc, force) {
      forall k | 1 <= k < |c|
        ensures c[k].tag.Some? && (c[k].ns.None? || force || fo || Escaped(c, k))
      {
        assert cc[k + 1] == c[k];
        EscapedCons(v, c, k);
      }
    }
    if c[0].tag.Some? && (c[0].ns.None? || force || fo) && Reached(c, force || fo) {
      forall k | 1 <= k < |cc|
        ensures cc[k].tag.Some? && (cc[k].ns.None? || force || Escaped(cc, k))
      {
        assert cc[k] == c[k - 1];
        EscapedCons(v, c, k - 1);
      }
    }
  }

  /** The pass, node by node: a node at path `p` is still at `p` afterwards,
      and its namespace is the expected one when the pass reaches it and is
      its own otherwise. */
  lemma {:induction false} ApplyNSAt(v: VNode, p: seq<nat>, ns: Option<string>, force: bool)
    requires ValidPath(v, p)
    ensures ValidPath(ApplyNSTree(v, ns, force), p)
    ensures var before := Chain(v, p);
            var after := Chain(ApplyNSTree(v, ns, force), p);
            after[|p|].tag == before[|p|].tag &&
            after[|p|].ns == (if Reached(before, force) then ExpectedNs(before, ns) else before[|p|].ns)
    decreases |p|
  {
    var w := ApplyNSTree(v, ns, force);
    if p == [] {
      assert !Escaped(Chain(v, p), 0);
    } else {
      var fo := v.tag == Some(ForeignObject);
      var innerNs := if fo then None else ns;
      var innerForce := if fo then true else force;
      var x := v.children.elems[p[0]];
      var y := w.children.elems[p[0]];
      assert y == ApplyNSChild(x, innerNs, innerForce);
      var rest := Chain(x.node, p[1..]);
      assert Chain(v, p) == [v] + rest;
      ReachedCons(v, rest, force);
      if Descends(x, innerForce) {
        ApplyNSAt(x.node, p[1..], innerNs, innerForce);
        assert Chain(w, p) == [w] + Chain(y.node, p[1..]);
        EscapedCons(v, rest, |rest| - 1);
      } else {
        assert Chain(w, p) == [w] + rest;
      }
    }
  }

  // ---------------------------------------------------------------------
  // Consequences

  /** Below a `foreignObject` every node the walk meets through tagged nodes
      loses its namespace, explicit ones included. */
  lemma ForeignObjectClearsDescendants(v: VNode, p: seq<nat>, ns: Option<string>, force: bool)
    requires v.tag == Some(ForeignObject)
    requires ValidPath(v, p) && |p| >= 1
    requires forall k :: 1 <= k <= |p| ==> Chain(v, p)[k].tag.Some?
    ensures ValidPath(ApplyNSTree(v, ns, force), p) &&
            Chain(ApplyNSTree(v, ns, force), p)[|p|].ns == None
  {
    var c := Chain(v, p);
    ApplyNSAt(v, p, ns, force);
    forall k | 1 <= k < |c| ensures Escaped(c, k) {
      assert c[0].tag == Some(ForeignObject);
    }
    assert Escaped(c, |c| - 1);
  }

  /** Without `force` and with no `foreignObject` on the way, a node whose
      path runs through tagged nodes without namespaces inherits `ns`. */
  lemma NamespaceInherited(v: VNode, p: seq<nat>, ns: Option<string>)
    requires ValidPath(v, p)
    requires forall k :: 1 <= k <= |p| ==> Chain(v, p)[k].tag.Some? && Chain(v, p)[k].ns.None?
    requires forall k :: 0 <= k < |p| ==> Chain(v, p)[k].tag != Some(ForeignObject)
    ensures ValidPath(ApplyNSTree(v, ns, false), p) &&
            Chain(ApplyNSTree(v, ns, false), p)[|p|].ns == ns
  {
    ApplyNSAt(v, p, ns, false);
  }

  /** Without `force` and with no `foreignObject` on the way, a node below
      the root that has a namespace of its own keeps it. */
  lemma ExplicitNamespaceKept(v: VNode, p: seq<nat>, ns: Option<string>)
    requires ValidPath(v, p) && |p| >= 1
    requires Chain(v, p)[|p|].ns.Some?
    requires forall k :: 0 <= k < |p| ==> Chain(v, p)[k].tag != Some(ForeignObject)
    ensures ValidPath(ApplyNSTree(v, ns, false), p) &&
            Chain(ApplyNSTree(v, ns, false), p)[|p|].ns == Chain(v, p)[|p|].ns
  {
    ApplyNSAt(v, p, ns, false);
  }

  /** A child that is not a tagged node (a text node, a primitive, a nested
      array) is left exactly as it was, below a `foreignObject` too; and so
      is, without `force` and outside a `foreignObject`, a child node that has
      a namespace of its own. */
  lemma UntouchedChildren(v: VNode, i: nat, ns: Option<string>, force: bool)
    requires v.children.Arr? && i < |v.children.elems|
    requires var x := v.children.elems[i];
      !x.Node? || x.node.tag.None? || (x.node.ns.Some? && !force && v.tag != Some(ForeignObject))
    ensures ApplyNSTree(v, ns, force).children.Arr? &&
            ApplyNSTree(v, ns, force).children.elems[i] == v.children.elems[i]
  {
  }

  /** An `<svg>` root holding a `foreignObject` (whose `<div>` child has a
      namespace of its own) and a `<g>` with an explicit namespace: the root
      and the `foreignObject` get `svg`, the `<div>` loses its namespace, the
      `<g>` keeps its own, and the text child is untouched. */
  lemma SvgForeignObjectExample()
    ensures
      var div := VNode(Some("div"), Some("x"), Undefined, Undefined, None, false, None);
      var fo := VNode(Some(ForeignObject), None, Undefined, Arr([Node(div), Str("hi")]), None, false, None);
      var g := VNode(Some("g"), Some("math"), Undefined, Undefined, None, false, None);
      var svg := VNode(Some("svg"), None, Undefined, Arr([Node(fo), Node(g)]), None, false, None);
      var r := ApplyNSTree(svg, Some("svg"), false);
      r.ns == Some("svg") &&
      r.children.elems[0].node.ns == Some("svg") &&
      r.children.elems[0].node.children.elems[0].node.ns == None &&
      r.children.elems[0].node.children.elems[1] == Str("hi") &&
      r.children.elems[1].node.ns == Some("math")
  {
    var div := VNode(Some("div"), Some("x"), Undefined, Undefined, None, false, None);
    var fo := VNode(Some(ForeignObject), None, Undefined, Arr([Node(div), Str("hi")]), None, false, None);
    var g := VNode(Some("g"), Some("math"), Undefined, Undefined, None, false, None);
    var svg := VNode(Some("svg"), None, Undefined, Arr([Node(fo), Node(g)]), None, false, None);
    var fo' := ApplyNSTree(fo, Some("svg"), false);
    assert fo'.children.elems[0] == Node(ApplyNSTree(div, None, true));
  }
}
