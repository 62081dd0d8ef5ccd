# Virtual-node builder and namespace pass

A Dafny model of the virtual-node builder of a Vue 2 style renderer
(`src/core/vdom/create-element.js`), with proofs about it.

- `createElement` sorts out its arguments. A `data` argument that is an array
  or a primitive is really the children, so every later argument moves down
  one place. A hand-written render function (`alwaysNormalize`) always gets
  full children normalization.
- `_createElement` (`Builder.CreateElementCore`) is a fixed sequence:
  1. data carrying the reactivity marker `__ob__` gives the empty node;
  2. `data.is` replaces the tag;
  3. a falsy tag gives the empty node;
  4. a non-primitive key gives a diagnostic;
  5. a children array whose first element is a function becomes the default
     scoped slot, and the array is emptied;
  6. the normalization type picks the full (2), shallow (1) or no normalizer;
  7. the tag is resolved to a reserved platform element, a registered
     component or an unknown element kept verbatim; a tag that is not a
     string goes to the component factory;
  8. a truthy namespace is applied to the result.
- `applyNS` propagates a namespace down a node tree in place. Below a
  `foreignObject` element (section 23.3 of SVG 1.1 Second Edition) it goes on
  with no namespace, forced over explicit ones.

Files:

- `values.dfy` (`JsValues`): JavaScript values (`undefined`, `null`,
  primitives, functions, arrays, plain objects as maps, virtual nodes),
  truthiness, `isDef`, `isPrimitive`, property reads and writes, and the
  virtual node as a value.
- `namespace.dfy` (`NamespacePass`): `ApplyNSTree`, the namespace pass on
  node values. It is characterised node by node along paths from the root
  (`ApplyNSAt`): a node is reached when every node below the root on its path
  is tagged and has no namespace of its own, unless the pass is forced there;
  a reached node gets the namespace, or none below a `foreignObject`;
  every other node keeps its own.
- `vnode_heap.dfy` (`HeapVNodes`): nodes as heap objects whose only mutable
  field is `ns`. `VNodeObject.ApplyNS` is the in-place pass, a loop over the
  children with a recursive call per qualifying child. It is proved to leave
  the subtree equal to `ApplyNSTree` of its old value.
- `builder.dfy` (`Builder`): `createElement` and `_createElement` as
  functions. The collaborators they call are not part of this model: the
  children normalizers, `createComponent`, `resolveAsset` and the `config`
  tag tables. They are the fields of a `Platform` value of total functions,
  so every result holds for any choice of them.

Three behaviours of the code worth knowing:

- the scoped-slot rewrite fires for any children array whose first element
  is a function, not only a one-element one;
- observed data gives the empty node with no diagnostic, because the warning
  is commented out in the source;
- an unknown string tag does get the namespace computed from the context or
  from `getTagNamespace`, like a reserved one.

## Model

| member | source | states |
|---|---|---|
| `Builder.OmittedData` | src/core/vdom/create-element.js:36-41 | an array or primitive `data` is the children: the call equals the one with `data` undefined, and the normalization type is the old `children` argument |
| `Builder.DataKeptInPlace` | src/core/vdom/create-element.js:36-46 | a `data` that is neither an array nor a primitive, without `alwaysNormalize`, reaches `_createElement` with tag, data, children and normalization type exactly as given |
| `Builder.AlwaysNormalizeIgnoresHint` | src/core/vdom/create-element.js:42-46 | with `alwaysNormalize` the result does not depend on the hint and equals `_createElement` with type 2 |
| `Builder.ObservedDataYieldsEmpty` | src/core/vdom/create-element.js:59-68 | data with a defined `__ob__` gives the empty node, whatever the tag, `data.is` or children |
| `Builder.IsOverridesTag` | src/core/vdom/create-element.js:70-72 | a defined `data.is` replaces the tag: the tag argument is never consulted |
| `Builder.FalsyTagYieldsEmpty` | src/core/vdom/create-element.js:73-76 | a falsy tag after the override gives the empty node |
| `Builder.KeyWarningOnly` | src/core/vdom/create-element.js:79-87 | past the guards, the diagnostic is issued exactly for a defined non-primitive key |
| `Builder.CreateElementCore` | src/core/vdom/create-element.js:49-146 | a diagnostic is only ever issued after both guards passed and for a non-primitive key |
| `Builder.ScopedSlotStep` | src/core/vdom/create-element.js:89-95 | a leading function makes `data.scopedSlots` exactly `{ default: fn }` (on a fresh object when `data` is falsy), the data's keys become the old ones plus `scopedSlots` and the other properties are kept, the children array ends empty; otherwise nothing changes |
| `Builder.DefaultSlotOnElement` | src/core/vdom/create-element.js:89-95 | on a built element with no normalization requested, the node has no children and its data holds the slot function |
| `Builder.NormalizationChoice` | src/core/vdom/create-element.js:98-112 | type 2 applies the full normalizer, type 1 the shallow one, any other type leaves the children untouched |
| `Builder.ReservedTagElement` | src/core/vdom/create-element.js:115-123 | a reserved tag gives an element named `parsePlatformTagName(tag)` holding the prepared data and children; it is namespaced by the pass (lines 140-142) exactly when the namespace is truthy, and nothing but namespaces differs |
| `Builder.RegisteredComponent` | src/core/vdom/create-element.js:124-126 | a registered component gives exactly the node `createComponent` makes, passed through the namespace pass when the namespace is truthy, or the empty node when it makes none |
| `Builder.UnknownTagElement` | src/core/vdom/create-element.js:127-135 | any other string tag gives an element with the tag verbatim, namespaced as for a reserved tag |
| `Builder.ComponentOptionsTag` | src/core/vdom/create-element.js:136-139 | a tag that is not a string goes to `createComponent`; its node is returned unchanged (no namespace), or the empty node when there is none |
| `NamespacePass.ApplyNSKeepsShape` | src/core/vdom/create-element.js:148-163 | the pass always sets the node's own namespace and changes nothing but namespaces: tags, data and children are kept |
| `NamespacePass.ApplyNSAt` | src/core/vdom/create-element.js:148-163 | node by node: a node the pass reaches gets the namespace, or none below a `foreignObject`; any other node keeps its own namespace |
| `NamespacePass.ForeignObjectClearsDescendants` | src/core/vdom/create-element.js:150-154 | below a `foreignObject`, every node reached through tagged nodes ends with no namespace, explicit ones included |
| `NamespacePass.NamespaceInherited` | src/core/vdom/create-element.js:155-161 | unforced and with no `foreignObject` above it, a node whose path runs through tagged nodes with no namespace inherits the namespace |
| `NamespacePass.ExplicitNamespaceKept` | src/core/vdom/create-element.js:158-160 | unforced and with no `foreignObject` above it, a descendant with its own namespace keeps it |
| `NamespacePass.UntouchedChildren` | src/core/vdom/create-element.js:158-160 | a child that is not a tagged node is left exactly as it was, below a `foreignObject` too; so is, unforced and outside a `foreignObject`, a node with its own namespace |
| `NamespacePass.SvgForeignObjectExample` | src/core/vdom/create-element.js:148-163 | an `svg` root over a `foreignObject`: the root and the `foreignObject` get `svg`, the element under it loses its explicit namespace, a sibling with its own keeps it, text is untouched |
| `HeapVNodes.VNodeObject.ApplyNS` | src/core/vdom/create-element.js:148-163 | the in-place pass: it sets `ns` on existing objects, only within the subtree, and leaves the subtree equal to the value pass applied to its old value |
| `HeapVNodes.VNodeObject.constructor` | src/core/vdom/create-element.js:131-134 | a new node has an undefined namespace, its footprint is itself plus exactly the subtrees of its children, and it holds the given tag, data, children, text and context |

## Left out

- The reconciliation engine and `src/platforms/web/runtime/patch.js` are not part of this model. `patch.js` only concatenates module lists and calls `createPatchFunction`, whose source (`core/vdom/patch`) and `nodeOps` are outside this model.
- The bodies of `normalizeChildren`, `simpleNormalizeChildren`, `createComponent`, `resolveAsset`, `config.isReservedTag`, `config.getTagNamespace` and `config.parsePlatformTagName` are not modelled. They are arbitrary total functions of `Builder.Platform`. `createComponent` reaching the context and the registry is reduced to the context's identity.
- The diagnostic's text, the `context` it is reported against and the `process.env.NODE_ENV` switch are left out. `warned` is the development build's decision; a production build issues none.
- Numbers are unbounded integers. `NaN`, fractions and `-0` are not modelled, so neither is the falsiness of `NaN`.
- Property reads on functions, virtual nodes and primitives read `undefined`, and property writes on them are dropped. Only plain objects hold properties. The source only ever reads `__ob__`, `is` and `key` and writes `scopedSlots`, and it expects `data` to be a plain object.
- Builder.ScopedSlotStep: `data.scopedSlots = …` and `children.length = 0` are writes to the caller's own objects. The model returns the new values instead, so a caller's other references to those objects are not modelled.
- Of a virtual node, the model keeps `tag`, `ns`, `data`, `children`, `text`, `isComment` and `context`. Fields the builder does not touch (`elm`, `key`, `componentOptions`, …) are left out. Of the context, only its identity and `$vnode.ns` are kept.
- `applyNS` descends only into virtual nodes. A `null` or `undefined` entry in a children array makes the source throw a `TypeError` on `child.tag`; the model skips that entry. A plain object with a `tag` property in a children array is not descended into.
- A children value that is not an array is not walked. For a string the source walks its characters, none of which has a tag, so the outcome is the same.
- HeapVNodes.VNodeObject.ApplyNS: requires the subtree to be a tree, with no node object under two parents. With sharing, the source would visit a shared node twice, and the second visit would see the namespace the first one wrote.
