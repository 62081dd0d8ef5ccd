/** Virtual nodes as heap objects, and `applyNS` as the in-place pass it is in
    create-element.js.

    Only `ns` is ever assigned after construction, so every other field is a
    `const`; `Repr` is the set of node objects of the subtree. A node object
    is taken to appear at most once in a tree, so the children of one node
    own disjoint subtrees; `Model()` reads the subtree back as a
    `JsValues.VNode` value. */
module HeapVNodes {
  import opened JsValues
  import opened NamespacePass

  /** One entry of a children array: a node object, or any other value
      (a primitive, a nested array, ...). */
  datatype Item = Child(node: VNodeObject) | Leaf(v: Value)

  /** The children field: an array of entries, or a value that is not an
      array (`undefined` for a node without children). */
  datatype Kids = Items(items: seq<Item>) | Other(v: Value)

  /** The objects of all subtrees hanging off `items`. */
  ghost function Footprint(items: seq<Item>): set<object>
    decreases |items|
  {
    if items == [] then {}
    else (if items[0].Child? then items[0].node.Repr else {}) + Footprint(items[1..])
  }

  lemma FootprintCovers(items: seq<Item>, i: nat)
    requires i < |items| && items[i].Child?
    ensures items[i].node.Repr <= Footprint(items)
    decreases |items|
  {
    if i > 0 {
      FootprintCovers(items[1..], i - 1);
    }
  }

  /** The shape of a children field that does not depend on the child
      objects' own invariants: a non-array value is not an array, an entry
      that is not an object is not a node, and node entries own disjoint
      subtrees. */
  ghost predicate KidsShape(k: Kids) {
    match k
    case Other(v) => !v.Arr?
    case Items(items) =>
      (forall i :: 0 <= i < |items| ==> items[i].Leaf? ==> !items[i].v.Node?) &&
      (forall i, j :: 0 <= i < j < |items| && items[i].Child? && items[j].Child? ==>
        items[i].node.Repr !! items[j].node.Repr)
  }

  /** Children that can be put under a new node: well shaped, and every node
      entry valid. */
  ghost predicate KidsOk(k: Kids) {
    KidsShape(k) &&
    (k.Items? ==> forall i :: 0 <= i < |k.items| && k.items[i].Child? ==> k.items[i].node.Valid())
  }

  class VNodeObject {
    const tag: Option<string>
    var ns: Option<string>
    const data: Value
    const children: Kids
    const text: Option<string>
    const isComment: bool
    const context: Option<nat>
    ghost const Repr: set<object>

    /** The subtree is a tree: this node is in its own footprint, each child
        owns a strictly smaller footprint without this node, and siblings own
        disjoint ones. Reads only constant fields. */
    ghost predicate Valid()
      decreases Repr
    {
      this in Repr && KidsShape(children) &&
      (children.Items? ==>
        forall i :: 0 <= i < |children.items| && children.items[i].Child? ==>
          var n := children.items[i].node;
          n.Repr < Repr && this !in n.Repr && n.Valid())
    }

    /** `new VNode(tag, data, children, text, undefined, context)`: the
        namespace starts out undefined. */
    constructor (tag: Option<string>, data: Value, children: Kids, text: Option<string>,
                 isComment: bool, context: Option<nat>)
      requires KidsOk(children)
      ensures Valid() && this.ns == None
      ensures Repr == {this} + (if children.Items? then Footprint(children.items) else {})
      ensures this.tag == tag && this.data == data && this.children == children
      ensures this.text == text && this.isComment == isComment && this.context == context
    {
      this.tag := tag;
      this.ns := None;
      this.data := data;
      this.children := children;
      this.text := text;
      this.isComment := isComment;
      this.context := context;
      this.Repr := {this} + (if children.Items? then Footprint(children.items) else {});
      new;
      if children.Items? {
        forall i | 0 <= i < |children.items| && children.items[i].Child?
          ensures children.items[i].node.Repr <= Repr
        {
          FootprintCovers(children.items, i);
        }
      }
    }

    /** The value of the `i`th entry of the children array. */
    ghost function ChildModel(i: nat): Value
      requires Valid() && children.Items? && i < |children.items|
      reads if children.items[i].Child? then children.items[i].node.Repr else {}
      decreases Repr, 0
    {
      match children.items[i]
      case Child(n) => Node(n.Model())
      case Leaf(v) => v
    }

    /** The subtree as a value. */
    ghost function Model(): (m: VNode)
      requires Valid()
      reads Repr
      ensures m.tag == tag && m.ns == ns && m.children.Arr? == children.Items?
      ensures children.Items? ==> (|m.children.elems| == |children.items| &&
        forall i :: 0 <= i < |children.items| ==> m.children.elems[i] == ChildModel(i))
      decreases Repr, 1
    {
      var kids :=
        if children.Items? then
          Arr(seq(|children.items|, i requires 0 <= i < |children.items| && Valid() reads Repr => ChildModel(i)))
        else children.v;
      VNode(tag, ns, data, kids, text, isComment, context)
    }

    /** `applyNS(vnode, ns, force)`: sets this node's namespace and walks its
        children in order, descending into every tagged child whose namespace
        is unset or when forced; below a `foreignObject` the walk goes on with
        no namespace and forced. The result is the value pass on the
        subtree, and only the subtree's objects change. */
    method ApplyNS(ns: Option<string>, force: bool)
      requires Valid()
      modifies Repr
      ensures Valid()
      ensures Model() == ApplyNSTree(old(Model()), ns, force)
      decreases Repr
    {
      ghost var before := Model();
      this.ns := ns;
      var innerNs, innerForce := ns, force;
      if tag == Some(ForeignObject) {
        innerNs := None;
        innerForce := true;
      }
      if children.Items? {
        var items := children.items;
        for i := 0 to |items|
          invariant this.ns == ns
          invariant forall j :: 0 <= j < i ==>
            ChildModel(j) == ApplyNSChild(old(ChildModel(j)), innerNs, innerForce)
          invariant forall j :: i <= j < |items| ==> ChildModel(j) == old(ChildModel(j))
        {
          match items[i]
          case Child(c) =>
            if c.tag.Some? && (c.ns.None? || innerForce) {
              c.ApplyNS(innerNs, innerForce);
            }
          case Leaf(_) =>
        }
        assert Model().children == ApplyNSChildren(before.children, innerNs, innerForce);
      }
    }
  }
}
