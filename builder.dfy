/** The virtual-node builder of create-element.js: `createElement`, which
    sorts out its arguments, and `_createElement`, the guard and dispatch
    sequence that builds one node (here `CreateElementCore`).

    The collaborators the builder calls but that are not part of this model
    (the two children normalizers, `createComponent`, the component registry
    behind `resolveAsset` and the platform's tag tables in `config`) are the
    fields of a `Platform` value: the results are stated for every choice of
    them. */
module Builder {
  import opened JsValues
  import opened NamespacePass

  /** Values of the normalization type. */
  const SimpleNormalize: int := 1
  const AlwaysNormalize: int := 2

  /** The builder's collaborators. */
  datatype Platform = Platform(
    /** `config.isReservedTag` */
    isReservedTag: string -> bool,
    /** `config.getTagNamespace` */
    getTagNamespace: string -> Option<string>,
    /** `config.parsePlatformTagName` */
    parsePlatformTagName: string -> string,
    /** `resolveAsset(context.$options, 'components', tag)`, for the context
        with the given identity */
    resolveComponent: (nat, string) -> Value,
    /** `createComponent(Ctor, data, context, children, tag)`; `None` when it
        returns `undefined` */
    createComponent: (Value, Value, nat, Value, Option<string>) -> Option<VNode>,
    /** `normalizeChildren` (full) */
    normalizeChildren: Value -> Value,
    /** `simpleNormalizeChildren` (one level) */
    simpleNormalizeChildren: Value -> Value)

  /** The component instance the node is built in: its identity, and the
      namespace of its placeholder node `context.$vnode.ns` (`None` when
      there is no placeholder or it has no namespace). */
  datatype Context = Context(id: nat, vnodeNs: Option<string>)

  /** The node built, and whether the non-primitive-key diagnostic was
      issued (development builds). */
  datatype Created = Created(vnode: VNode, warned: bool)

  /** `data` and `children` after the scoped-slot rewrite. */
  datatype Prepared = Prepared(data: Value, children: Value)

  // ---------------------------------------------------------------------
  // createElement

  /** `createElement(context, tag, data, children, normalizationType,
      alwaysNormalize)`: a `data` that is an array or a primitive is really
      the children, and every later argument moves down one place; a
      hand-written render function always asks for full normalization. */
  function CreateElement(p: Platform, ctx: Context, tag: Value, data: Value, children: Value,
                         normalizationType: Value, alwaysNormalize: bool): (r: Created)
  {
    var shifted := data.Arr? || IsPrimitive(data);
    var d := if shifted then Undefined else data;
    var c := if shifted then data else children;
    var n := if shifted then children else normalizationType;
    CreateElementCore(p, ctx, tag, d, c, if alwaysNormalize then Num(AlwaysNormalize) else n)
  }

  /** Leaving `data` out is the same as passing `undefined` for it. */
  lemma OmittedData(p: Platform, ctx: Context, tag: Value, children: Value, rest: Value,
                    normalizationType: Value, alwaysNormalize: bool)
    requires children.Arr? || IsPrimitive(children)
    ensures CreateElement(p, ctx, tag, children, rest, normalizationType, alwaysNormalize)
         == CreateElement(p, ctx, tag, Undefined, children, rest, alwaysNormalize)
    ensures CreateElement(p, ctx, tag, children, rest, normalizationType, alwaysNormalize)
         == CreateElementCore(p, ctx, tag, Undefined, children,
                              if alwaysNormalize then Num(AlwaysNormalize) else rest)
  {
  }

  /** A `data` that is neither an array nor a primitive stays in place: without
      `alwaysNormalize`, `_createElement` gets the three arguments as given. */
  lemma DataKeptInPlace(p: Platform, ctx: Context, tag: Value, data: Value, children: Value,
                        normalizationType: Value)
    requires !(data.Arr? || IsPrimitive(data))
    ensures CreateElement(p, ctx, tag, data, children, normalizationType, false)
         == CreateElementCore(p, ctx, tag, data, children, normalizationType)
  {
  }

  /** With `alwaysNormalize` the normalization hint that was passed, or
      shifted in, makes no difference: `_createElement` gets type 2. */
  lemma AlwaysNormalizeIgnoresHint(p: Platform, ctx: Context, tag: Value, data: Value,
                                   children: Value, hint1: Value, hint2: Value)
    requires !(data.Arr? || IsPrimitive(data))
    ensures CreateElement(p, ctx, tag, data, children, hint1, true)
         == CreateElement(p, ctx, tag, data, children, hint2, true)
         == CreateElementCore(p, ctx, tag, data, children, Num(AlwaysNormalize))
  {
  }

  // ---------------------------------------------------------------------
  // _createElement, step by step

  /** `data` carries the reactivity marker `__ob__`. */
  predicate Observed(data: Value) {
    IsDef(data) && IsDef(Get(data, "__ob__"))
  }

  /** The tag after the `data.is` override. */
  function EffectiveTag(tag: Value, data: Value): (t: Value) {
    if IsDef(data) && IsDef(Get(data, "is")) then Get(data, "is") else tag
  }

  /** The development-build diagnostic: a defined key that is not primitive. */
  predicate NonPrimitiveKey(data: Value) {
    IsDef(data) && IsDef(Get(data, "key")) && !IsPrimitive(Get(data, "key"))
  }

  /** A children array whose first element is a function. */
  predicate HasSlotFunction(children: Value) {
    children.Arr? && |children.elems| > 0 && children.elems[0].Fn?
  }

  /** The scoped-slot rewrite: `data.scopedSlots` is replaced by an object
      whose only slot, `default`, is the function (on a fresh object when
      `data` is falsy; slots already there are dropped), and the children
      array is emptied; otherwise nothing changes. */
  function ScopedSlotStep(data: Value, children: Value): (r: Prepared)
    ensures !HasSlotFunction(children) ==> r == Prepared(data, children)
    ensures HasSlotFunction(children) ==> r.children == Arr([])
    ensures HasSlotFunction(children) && (data.Obj? || !Truthy(data)) ==>
      r.data.Obj? && Get(Get(r.data, "scopedSlots"), "default") == children.elems[0]
    ensures HasSlotFunction(children) && (data.Obj? || !Truthy(data)) ==>
      Get(r.data, "scopedSlots") == Obj(map["default" := children.elems[0]])
    ensures HasSlotFunction(children) && data.Obj? ==>
      r.data.fields.Keys == data.fields.Keys + {"scopedSlots"}
    ensures HasSlotFunction(children) && data.Obj? ==>
      forall k :: k in data.fields && k != "scopedSlots" ==> k in r.data.fields && r.data.fields[k] == data.fields[k]
    ensures HasSlotFunction(children) && !Truthy(data) ==> r.data.fields.Keys == {"scopedSlots"}
  {
    if HasSlotFunction(children) then
      var d := if Truthy(data) then data else Obj(map[]);
      Prepared(SetField(d, "scopedSlots", Obj(map["default" := children.elems[0]])), Arr([]))
    else Prepared(data, children)
  }

  /** The children normalization chosen by the normalization type. */
  function NormalizeStep(p: Platform, normalizationType: Value, children: Value): (r: Value) {
    if normalizationType == Num(AlwaysNormalize) then p.normalizeChildren(children)
    else if normalizationType == Num(SimpleNormalize) then p.simpleNormalizeChildren(children)
    else children
  }

  /** `(context.$vnode && context.$vnode.ns) || config.getTagNamespace(tag)` */
  function TagNamespace(p: Platform, ctx: Context, tag: string): (ns: Option<string>) {
    if NsTruthy(ctx.vnodeNs) then ctx.vnodeNs else p.getTagNamespace(tag)
  }

  /** `new VNode(tag, data, children, undefined, undefined, context)` */
  function Element(tag: string, data: Value, children: Value, ctx: Context): (e: VNode) {
    VNode(Some(tag), None, data, children, None, false, Some(ctx.id))
  }

  /** The last step: no node becomes the empty node, and a truthy namespace
      is applied to the node and its subtree. */
  function Finish(made: Option<VNode>, ns: Option<string>): (r: VNode) {
    match made
    case None => EmptyVNode()
    case Some(v) => if NsTruthy(ns) then ApplyNSTree(v, ns, false) else v
  }

  /** Tag resolution: a reserved platform tag, then a registered component,
      then an unknown element kept verbatim; a tag that is not a string goes
      to `createComponent`. The namespace is looked up for string tags only. */
  function Instantiate(p: Platform, ctx: Context, tag: Value, data: Value, children: Value): (r: VNode) {
    if tag.Str? then
      var ctor := p.resolveComponent(ctx.id, tag.s);
      var made :=
        if p.isReservedTag(tag.s) then Some(Element(p.parsePlatformTagName(tag.s), data, children, ctx))
        else if IsDef(ctor) then p.createComponent(ctor, data, ctx.id, children, Some(tag.s))
        else Some(Element(tag.s, data, children, ctx));
      Finish(made, TagNamespace(p, ctx, tag.s))
    else
      Finish(p.createComponent(tag, data, ctx.id, children, None), None)
  }

  /** `_createElement(context, tag, data, children, normalizationType)`. */
  function CreateElementCore(p: Platform, ctx: Context, tag: Value, data: Value, children: Value,
                             normalizationType: Value): (r: Created)
    ensures r.warned ==> NonPrimitiveKey(data) && !Observed(data) && Truthy(EffectiveTag(tag, data))
  {
    if Observed(data) then Created(EmptyVNode(), false)
    else
      var tag := EffectiveTag(tag, data);
      if !Truthy(tag) then Created(EmptyVNode(), false)
      else
        var prepared := ScopedSlotStep(data, children);
        var kids := NormalizeStep(p, normalizationType, prepared.children);
        Created(Instantiate(p, ctx, tag, prepared.data, kids), NonPrimitiveKey(data))
  }

  // ---------------------------------------------------------------------
  // What _createElement promises

  /** Observed data is refused before anything else is looked at: neither
      the tag nor `data.is` matters. */
  lemma ObservedDataYieldsEmpty(p: Platform, ctx: Context, tag: Value, data: Value, children: Value,
                                normalizationType: Value)
    requires Observed(data)
    ensures CreateElementCore(p, ctx, tag, data, children, normalizationType) == Created(EmptyVNode(), false)
  {
  }

  /** A defined `data.is` replaces the tag: the tag argument is not consulted. */
  lemma IsOverridesTag(p: Platform, ctx: Context, tag1: Value, tag2: Value, data: Value,
                       children: Value, normalizationType: Value)
    requires !Observed(data) && IsDef(data) && IsDef(Get(data, "is"))
    ensures CreateElementCore(p, ctx, tag1, data, children, normalizationType)
         == CreateElementCore(p, ctx, tag2, data, children, normalizationType)
         == CreateElementCore(p, ctx, Get(data, "is"), data, children, normalizationType)
  {
  }

  /** A falsy tag, after the override, yields the empty node. */
  lemma FalsyTagYieldsEmpty(p: Platform, ctx: Context, tag: Value, data: Value, children: Value,
                            normalizationType: Value)
    requires !Observed(data) && !Truthy(EffectiveTag(tag, data))
    ensures CreateElementCore(p, ctx, tag, data, children, normalizationType) == Created(EmptyVNode(), false)
  {
  }

  /** Children that reach a built element: type 2 applies the full
      normalizer, type 1 the shallow one, any other type none. */
  lemma NormalizationChoice(p: Platform, normalizationType: Value, children: Value)
    ensures normalizationType == Num(2) ==> NormalizeStep(p, normalizationType, children) == p.normalizeChildren(children)
    ensures normalizationType == Num(1) ==> NormalizeStep(p, normalizationType, children) == p.simpleNormalizeChildren(children)
    ensures normalizationType != Num(1) && normalizationType != Num(2) ==>
      NormalizeStep(p, normalizationType, children) == children
  {
  }

  /** The element built for a string tag that is not a component: it keeps
      the given data and children apart from namespaces, and a truthy
      namespace is applied to it by the namespace pass. */
  predicate BuiltElement(r: VNode, e: VNode, ns: Option<string>) {
    EraseNs(r) == EraseNs(e) && r.tag == e.tag &&
    r.ns == (if NsTruthy(ns) then ns else None) &&
    r == (if NsTruthy(ns) then ApplyNSTree(e, ns, false) else e)
  }

  /** A reserved tag yields a platform element named `parsePlatformTagName(tag)`. */
  lemma ReservedTagElement(p: Platform, ctx: Context, tag: Value, data: Value, children: Value,
                           normalizationType: Value, s: string)
    requires !Observed(data) && EffectiveTag(tag, data) == Str(s) && s != ""
    requires p.isReservedTag(s)
    ensures var prepared := ScopedSlotStep(data, children);
            var kids := NormalizeStep(p, normalizationType, prepared.children);
            var r := CreateElementCore(p, ctx, tag, data, children, normalizationType).vnode;
            BuiltElement(r, Element(p.parsePlatformTagName(s), prepared.data, kids, ctx), TagNamespace(p, ctx, s))
  {
    var prepared := ScopedSlotStep(data, children);
    var kids := NormalizeStep(p, normalizationType, prepared.children);
    ApplyNSKeepsShape(Element(p.parsePlatformTagName(s), prepared.data, kids, ctx), TagNamespace(p, ctx, s), false);
  }

  /** A string tag that is neither reserved nor a registered component yields
      an element whose tag is kept verbatim. */
  lemma UnknownTagElement(p: Platform, ctx: Context, tag: Value, data: Value, children: Value,
                          normalizationType: Value, s: string)
    requires !Observed(data) && EffectiveTag(tag, data) == Str(s) && s != ""
    requires !p.isReservedTag(s) && !IsDef(p.resolveComponent(ctx.id, s))
    ensures var prepared := ScopedSlotStep(data, children);
            var kids := NormalizeStep(p, normalizationType, prepared.children);
            var r := CreateElementCore(p, ctx, tag, data, children, normalizationType).vnode;
            BuiltElement(r, Element(s, prepared.data, kids, ctx), TagNamespace(p, ctx, s))
  {
    var prepared := ScopedSlotStep(data, children);
    var kids := NormalizeStep(p, normalizationType, prepared.children);
    ApplyNSKeepsShape(Element(s, prepared.data, kids, ctx), TagNamespace(p, ctx, s), false);
  }

  /** A string tag naming a registered component yields what `createComponent`
      makes of it (namespaced when the namespace is truthy), or the empty node
      when it makes nothing. */
  lemma RegisteredComponent(p: Platform, ctx: Context, tag: Value, data: Value, children: Value,
                            normalizationType: Value, s: string)
    requires !Observed(data) && EffectiveTag(tag, data) == Str(s) && s != ""
    requires !p.isReservedTag(s) && IsDef(p.resolveComponent(ctx.id, s))
    ensures var prepared := ScopedSlotStep(data, children);
            var kids := NormalizeStep(p, normalizationType, prepared.children);
            var made := p.createComponent(p.resolveComponent(ctx.id, s), prepared.data, ctx.id, kids, Some(s));
            var ns := TagNamespace(p, ctx, s);
            var r := CreateElementCore(p, ctx, tag, data, children, normalizationType).vnode;
            (made.None? ==> r == EmptyVNode()) &&
            (made.Some? ==> EraseNs(r) == EraseNs(made.value) && r.tag == made.value.tag &&
                            r.ns == (if NsTruthy(ns) then ns else made.value.ns) &&
                            r == (if NsTruthy(ns) then ApplyNSTree(made.value, ns, false) else made.value))
  {
    var prepared := ScopedSlotStep(data, children);
    var kids := NormalizeStep(p, normalizationType, prepared.children);
    var made := p.createComponent(p.resolveComponent(ctx.id, s), prepared.data, ctx.id, kids, Some(s));
    if made.Some? {
      ApplyNSKeepsShape(made.value, TagNamespace(p, ctx, s), false);
    }
  }

  /** A truthy tag that is not a string goes straight to `createComponent`,
      and no namespace is ever applied to what it returns. */
  lemma ComponentOptionsTag(p: Platform, ctx: Context, tag: Value, data: Value, children: Value,
                            normalizationType: Value)
    requires !Observed(data) && Truthy(EffectiveTag(tag, data)) && !EffectiveTag(tag, data).Str?
    ensures var prepared := ScopedSlotStep(data, children);
            var kids := NormalizeStep(p, normalizationType, prepared.children);
            var made := p.createComponent(EffectiveTag(tag, data), prepared.data, ctx.id, kids, None);
            var r := CreateElementCore(p, ctx, tag, data, children, normalizationType).vnode;
            r == (if made.Some? then made.value else EmptyVNode())
  {
  }

  /** The scoped-slot rewrite seen on a built element: with no normalization
      requested, the element has no children and its data holds the function
      as the default scoped slot. */
  lemma DefaultSlotOnElement(p: Platform, ctx: Context, tag: Value, data: Value, children: Value,
                             normalizationType: Value, s: string)
    requires !Observed(data) && EffectiveTag(tag, data) == Str(s) && s != ""
    requires p.isReservedTag(s) || !IsDef(p.resolveComponent(ctx.id, s))
    requires HasSlotFunction(children) && (data.Obj? || !Truthy(data))
    requires normalizationType != Num(1) && normalizationType != Num(2)
    ensures var r := CreateElementCore(p, ctx, tag, data, children, normalizationType).vnode;
            r.children == Arr([]) && Get(Get(r.data, "scopedSlots"), "default") == children.elems[0]
  {
  }

  /** Once the guards are passed, the diagnostic is issued exactly for a
      defined key that is not primitive (the node itself does not depend on
      it: `warned` is not an input of any later step). */
  lemma KeyWarningOnly(p: Platform, ctx: Context, tag: Value, data: Value, children: Value,
                       normalizationType: Value)
    requires !Observed(data) && Truthy(EffectiveTag(tag, data))
    ensures CreateElementCore(p, ctx, tag, data, children, normalizationType).warned == NonPrimitiveKey(data)
  {
  }
}
