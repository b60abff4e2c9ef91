/** The scene synchroniser: on each batch of property changes it rebuilds the
    render nodes of structurally changed entities through the
    content-addressed resource caches, patches transforms in place and
    overwrites the camera. */
module Viewport {
  import opened Descriptor

  type EntityId = nat

  /** A shared backend resource (a compiled program, a bound vertex array, an
      uploaded texture), told apart by identity. */
  type Handle = nat

  /** A changed property: which entity, which key. */
  datatype PropRef = PropRef(entityId: EntityId, propertyKey: string)

  /** The current property values of the scene's entities, as
      `get_property_value` returns them; a missing key is an absent property. */
  type Scene = map<PropRef, Pon>

  /** A 4x4 matrix of raw `f32` words, row by row. */
  datatype Matrix4 = Matrix4(cells: seq<Word>)

  /** The bit pattern of the `f32` value 1.0. */
  const F32_ONE: Word := 0x3F80_0000

  const Identity: Matrix4 := Matrix4(seq(16, k => if k % 5 == 0 then F32_ONE else 0))

  datatype ShaderUniforms = ShaderUniforms(bindings: seq<(string, Pon)>)

  /** The external translations of a descriptor into a matrix and into
      shader uniforms; `None` is a translation that fails, on which the
      subsystem panics. */
  datatype Translators = Translators(
    toMatrix: Pon -> Option<Matrix4>,
    toUniforms: Pon -> Option<ShaderUniforms>)

  datatype RenderNode = RenderNode(
    id: EntityId,
    shader: Handle,
    vertexArray: Handle,
    textures: seq<(string, Handle)>,
    transform: Matrix4,
    uniforms: ShaderUniforms,
    alpha: bool)

  /** The calls made on the renderer, in order. */
  datatype RenderOp = Added(id: EntityId) | Removed(id: EntityId) | TransformSet(id: EntityId)

  // ---------------------------------------------------------------------
  // Reading an entity's properties

  function Prop(scene: Scene, e: EntityId, key: string): Option<Pon>
  {
    if PropRef(e, key) in scene then Some(scene[PropRef(e, key)]) else None
  }

  /** The shader used when an entity names none; registered by the constructor. */
  const BasicShaderKey: Pon := String("basic")

  function ShaderKey(scene: Scene, e: EntityId): Pon
  {
    match Prop(scene, e, "shader")
    case Some(p) => p
    case None => BasicShaderKey
  }

  /** An entity gets a node only with a mesh and with textures or a diffuse. */
  predicate Renderable(scene: Scene, e: EntityId)
  {
    Prop(scene, e, "mesh").Some? &&
    (Prop(scene, e, "textures").Some? || Prop(scene, e, "diffuse").Some?)
  }

  /** The vertex-array cache key: the shader key paired with the mesh key. */
  function VertexArrayKey(scene: Scene, e: EntityId): Pon
    requires Prop(scene, e, "mesh").Some?
  {
    Array([ShaderKey(scene, e), Prop(scene, e, "mesh").value])
  }

  /** The texture slots: `textures`, or else one `diffuse` slot. */
  function TextureKeys(scene: Scene, e: EntityId): Pon
    requires Renderable(scene, e)
  {
    match Prop(scene, e, "textures")
    case Some(t) => t
    case None => Object(map["diffuse" := Prop(scene, e, "diffuse").value])
  }

  predicate MatrixDefined(tr: Translators, scene: Scene, e: EntityId, key: string)
  {
    Prop(scene, e, key).Some? ==> tr.toMatrix(Prop(scene, e, key).value).Some?
  }

  /** The matrix property `key`, identity when absent. */
  function MatrixOf(tr: Translators, scene: Scene, e: EntityId, key: string): Matrix4
    requires MatrixDefined(tr, scene, e, key)
  {
    match Prop(scene, e, key)
    case Some(p) => tr.toMatrix(p).value
    case None => Identity
  }

  predicate UniformsDefined(tr: Translators, scene: Scene, e: EntityId)
  {
    Prop(scene, e, "uniforms").Some? ==> tr.toUniforms(Prop(scene, e, "uniforms").value).Some?
  }

  /** The shader uniforms, empty when absent. */
  function UniformsOf(tr: Translators, scene: Scene, e: EntityId): ShaderUniforms
    requires UniformsDefined(tr, scene, e)
  {
    match Prop(scene, e, "uniforms")
    case Some(p) => tr.toUniforms(p).value
    case None => ShaderUniforms([])
  }

  predicate AlphaDefined(scene: Scene, e: EntityId)
  {
    Prop(scene, e, "alpha").Some? ==> AsBool(Prop(scene, e, "alpha").value).Ok?
  }

  /** The blend flag, false when absent. */
  function AlphaOf(scene: Scene, e: EntityId): bool
    requires AlphaDefined(scene, e)
  {
    match Prop(scene, e, "alpha")
    case Some(p) => AsBool(p).value
    case None => false
  }

  /** Everything `renderer_add` unwraps on the way to a node translates. */
  predicate AddPanicFree(tr: Translators, scene: Scene, e: EntityId)
  {
    Renderable(scene, e) ==>
      TextureKeys(scene, e).Object? && MatrixDefined(tr, scene, e, "transformed") &&
      UniformsDefined(tr, scene, e) && AlphaDefined(scene, e)
  }

  // ---------------------------------------------------------------------
  // What a freshly built node holds

  /** Every cache entry of `a` is still in `b`, bound to the same handle. */
  ghost predicate Extends(a: map<Pon, Handle>, b: map<Pon, Handle>)
  {
    forall k :: k in a ==> k in b && b[k] == a[k]
  }

  /** One (name, texture) pair per slot, each the cached texture of that
      slot's descriptor. */
  ghost predicate SlotsResolved(ts: seq<(string, Handle)>, slots: map<string, Pon>, cache: map<Pon, Handle>)
  {
    (forall i, j :: 0 <= i < j < |ts| ==> ts[i].0 != ts[j].0) &&
    (forall i :: 0 <= i < |ts| ==> ts[i].0 in slots && slots[ts[i].0] in cache && ts[i].1 == cache[slots[ts[i].0]]) &&
    (forall name :: name in slots ==> exists i :: 0 <= i < |ts| && ts[i].0 == name)
  }

  /** The descriptors looked up for the texture pairs `ts`, in order. */
  function SlotKeys(ts: seq<(string, Handle)>, slots: map<string, Pon>): seq<Pon>
    requires forall i :: 0 <= i < |ts| ==> ts[i].0 in slots
  {
    if |ts| == 0 then [] else SlotKeys(ts[..|ts| - 1], slots) + [slots[ts[|ts| - 1].0]]
  }

  /** Part way through the texture loop: the slots outside `remaining` are
      resolved, each once. */
  ghost predicate Resolving(ts: seq<(string, Handle)>, slots: map<string, Pon>, remaining: set<string>, cache: map<Pon, Handle>)
  {
    && remaining <= slots.Keys
    && (forall i, j :: 0 <= i < j < |ts| ==> ts[i].0 != ts[j].0)
    && (forall i :: 0 <= i < |ts| ==>
          ts[i].0 in slots && ts[i].0 !in remaining && slots[ts[i].0] in cache && ts[i].1 == cache[slots[ts[i].0]])
    && (forall name :: name in slots && name !in remaining ==> exists i :: 0 <= i < |ts| && ts[i].0 == name)
  }

  lemma ResolvingStep(ts: seq<(string, Handle)>, slots: map<string, Pon>, remaining: set<string>,
                      cache: map<Pon, Handle>, cache': map<Pon, Handle>, name: string, h: Handle)
    requires Resolving(ts, slots, remaining, cache) && Extends(cache, cache')
    requires name in remaining && slots[name] in cache' && cache'[slots[name]] == h
    ensures Resolving(ts + [(name, h)], slots, remaining - {name}, cache')
    ensures (ts + [(name, h)])[..|ts|] == ts
  {
    var ts' := ts + [(name, h)];
    forall n | n in slots && n !in remaining - {name}
      ensures exists i :: 0 <= i < |ts'| && ts'[i].0 == n
    {
      if n == name {
        assert ts'[|ts|].0 == n;
      } else {
        var i :| 0 <= i < |ts| && ts[i].0 == n;
        assert ts'[i].0 == n;
      }
    }
  }

  /** The node of entity `e`, built against the caches `shaders`,
      `vertexArrays` and `textures`. */
  ghost predicate NodeMatches(n: RenderNode, tr: Translators, scene: Scene, e: EntityId,
                              shaders: map<Pon, Handle>, vertexArrays: map<Pon, Handle>, textures: map<Pon, Handle>)
    requires Renderable(scene, e) && AddPanicFree(tr, scene, e)
  {
    && n.id == e
    && ShaderKey(scene, e) in shaders && n.shader == shaders[ShaderKey(scene, e)]
    && VertexArrayKey(scene, e) in vertexArrays && n.vertexArray == vertexArrays[VertexArrayKey(scene, e)]
    && SlotsResolved(n.textures, TextureKeys(scene, e).fields, textures)
    && n.transform == MatrixOf(tr, scene, e, "transformed")
    && n.uniforms == UniformsOf(tr, scene, e)
    && n.alpha == AlphaOf(scene, e)
  }

  /** Growing the caches does not invalidate a node built against them. */
  lemma NodeMatchesExtends(n: RenderNode, tr: Translators, scene: Scene, e: EntityId,
                           s: map<Pon, Handle>, v: map<Pon, Handle>, t: map<Pon, Handle>,
                           s': map<Pon, Handle>, v': map<Pon, Handle>, t': map<Pon, Handle>)
    requires Renderable(scene, e) && AddPanicFree(tr, scene, e)
    requires NodeMatches(n, tr, scene, e, s, v, t)
    requires Extends(s, s') && Extends(v, v') && Extends(t, t')
    ensures NodeMatches(n, tr, scene, e, s', v', t')
  {
  }

  lemma {:induction false} DistinctNamesCount(ts: seq<(string, Handle)>)
    requires forall i, j :: 0 <= i < j < |ts| ==> ts[i].0 != ts[j].0
    ensures |set i | 0 <= i < |ts| :: ts[i].0| == |ts|
  {
    if |ts| > 0 {
      var front := ts[..|ts| - 1];
      DistinctNamesCount(front);
      var names := set i | 0 <= i < |ts| :: ts[i].0;
      var frontNames := set i | 0 <= i < |front| :: front[i].0;
      assert names == frontNames + {ts[|ts| - 1].0} by {
        forall name | name in names ensures name in frontNames + {ts[|ts| - 1].0} {
          var i :| 0 <= i < |ts| && ts[i].0 == name;
          if i < |ts| - 1 { assert front[i].0 == name; }
        }
        forall name | name in frontNames ensures name in names {
          var i :| 0 <= i < |front| && front[i].0 == name;
          assert ts[i].0 == name;
        }
      }
      assert ts[|ts| - 1].0 !in frontNames;
    }
  }

  /** A node has exactly as many (name, texture) pairs as there are slots. */
  lemma OnePairPerSlot(ts: seq<(string, Handle)>, slots: map<string, Pon>, cache: map<Pon, Handle>)
    requires SlotsResolved(ts, slots, cache)
    ensures |ts| == |slots|
  {
    DistinctNamesCount(ts);
    var names := set i | 0 <= i < |ts| :: ts[i].0;
    assert names == slots.Keys;
    assert |slots| == |slots.Keys|;
  }

  /** The nodes of the entities in `done` are exactly the ones their
      current properties call for, built against the caches `s`, `v`, `t`. */
  ghost predicate NodesBuilt(tr: Translators, scene: Scene, done: set<EntityId>, nodes: map<EntityId, RenderNode>,
                             s: map<Pon, Handle>, v: map<Pon, Handle>, t: map<Pon, Handle>)
  {
    forall y :: y in done ==>
      && AddPanicFree(tr, scene, y)
      && (y in nodes <==> Renderable(scene, y))
      && (y in nodes ==> NodeMatches(nodes[y], tr, scene, y, s, v, t))
  }

  // ---------------------------------------------------------------------
  // A batch of changes

  predicate IsStructuralKey(key: string)
  {
    key == "mesh" || key == "diffuse" || key == "alpha"
  }

  /** The entities with a structural change, deduplicated. */
  function StructuralEntities(changes: seq<PropRef>): set<EntityId>
  {
    if |changes| == 0 then {}
    else
      StructuralEntities(changes[..|changes| - 1]) +
      (if IsStructuralKey(changes[|changes| - 1].propertyKey) then {changes[|changes| - 1].entityId} else {})
  }

  /** An entity is rebuilt exactly when one of its `mesh`, `diffuse` or
      `alpha` properties changed; changes to any other key rebuild nothing. */
  lemma {:induction false} StructuralEntitiesCorrect(changes: seq<PropRef>)
    ensures forall e :: e in StructuralEntities(changes) <==>
      exists i :: 0 <= i < |changes| && changes[i].entityId == e && IsStructuralKey(changes[i].propertyKey)
    ensures (forall i :: 0 <= i < |changes| ==> !IsStructuralKey(changes[i].propertyKey)) ==>
      StructuralEntities(changes) == {}
  {
    if |changes| > 0 {
      var front := changes[..|changes| - 1];
      StructuralEntitiesCorrect(front);
      forall e ensures e in StructuralEntities(changes) <==>
        exists i :: 0 <= i < |changes| && changes[i].entityId == e && IsStructuralKey(changes[i].propertyKey)
      {
        if e in StructuralEntities(front) {
          var i :| 0 <= i < |front| && front[i].entityId == e && IsStructuralKey(front[i].propertyKey);
          assert changes[i] == front[i];
        }
        if exists i :: 0 <= i < |changes| && changes[i].entityId == e && IsStructuralKey(changes[i].propertyKey) {
          var i :| 0 <= i < |changes| && changes[i].entityId == e && IsStructuralKey(changes[i].propertyKey);
          if i < |changes| - 1 { assert front[i] == changes[i]; }
        }
      }
    }
  }

  /** The renderer calls of the rebuilds, in `order`: a removal each, then an
      addition for each renderable entity. */
  function RebuildOps(scene: Scene, order: seq<EntityId>): seq<RenderOp>
  {
    if |order| == 0 then []
    else
      var e := order[|order| - 1];
      RebuildOps(scene, order[..|order| - 1]) + [Removed(e)] + (if Renderable(scene, e) then [Added(e)] else [])
  }

  /** The renderer calls of the transform patches, in change order. */
  function TransformOps(changes: seq<PropRef>): seq<RenderOp>
  {
    if |changes| == 0 then []
    else
      var c := changes[|changes| - 1];
      TransformOps(changes[..|changes| - 1]) + (if c.propertyKey == "transformed" then [TransformSet(c.entityId)] else [])
  }

  /** Removing the last entity of a duplicate-free order leaves a
      duplicate-free order without it. */
  lemma DistinctFront(order: seq<EntityId>)
    requires |order| > 0
    requires forall i, j :: 0 <= i < j < |order| ==> order[i] != order[j]
    ensures var front := order[..|order| - 1];
      && (forall i, j :: 0 <= i < j < |front| ==> front[i] != front[j])
      && order[|order| - 1] !in front
  {
  }

  lemma RebuildOpsSnoc(scene: Scene, order: seq<EntityId>, e: EntityId)
    ensures RebuildOps(scene, order + [e]) ==
      RebuildOps(scene, order) + [Removed(e)] + (if Renderable(scene, e) then [Added(e)] else [])
  {
    assert (order + [e])[..|order|] == order;
  }

  /** The operations of a rebuild order, as a multiset, one entity at a time. */
  lemma RebuildOpsLast(scene: Scene, order: seq<EntityId>)
    requires |order| > 0
    ensures var e := order[|order| - 1];
      multiset(RebuildOps(scene, order)) ==
        multiset(RebuildOps(scene, order[..|order| - 1])) + multiset{Removed(e)} +
        (if Renderable(scene, e) then multiset{Added(e)} else multiset{})
  {
    var e := order[|order| - 1];
    var ops := RebuildOps(scene, order[..|order| - 1]);
    var tail := [Removed(e)] + (if Renderable(scene, e) then [Added(e)] else []);
    assert multiset(ops + tail) == multiset(ops) + multiset(tail);
  }

  /** Each rebuilt entity is removed exactly once; other entities never. */
  lemma {:induction false} RebuildOpsRemoveCount(scene: Scene, order: seq<EntityId>, x: EntityId)
    requires forall i, j :: 0 <= i < j < |order| ==> order[i] != order[j]
    ensures multiset(RebuildOps(scene, order))[Removed(x)] == if x in order then 1 else 0
  {
    if |order| > 0 {
      var front := order[..|order| - 1];
      DistinctFront(order);
      RebuildOpsRemoveCount(scene, front, x);
      RebuildOpsLast(scene, order);
      assert order == front + [order[|order| - 1]];
    }
  }

  /** Each rebuilt entity that is renderable is added back exactly once;
      other entities never. */
  lemma {:induction false} RebuildOpsAddCount(scene: Scene, order: seq<EntityId>, x: EntityId)
    requires forall i, j :: 0 <= i < j < |order| ==> order[i] != order[j]
    ensures multiset(RebuildOps(scene, order))[Added(x)] == if x in order && Renderable(scene, x) then 1 else 0
  {
    if |order| > 0 {
      var front := order[..|order| - 1];
      DistinctFront(order);
      RebuildOpsAddCount(scene, front, x);
      RebuildOpsLast(scene, order);
      assert order == front + [order[|order| - 1]];
    }
  }

  /** A rebuild never sets a transform. */
  lemma {:induction false} RebuildOpsNoTransform(scene: Scene, order: seq<EntityId>)
    ensures forall k :: 0 <= k < |RebuildOps(scene, order)| ==> !RebuildOps(scene, order)[k].TransformSet?
  {
    if |order| > 0 {
      RebuildOpsNoTransform(scene, order[..|order| - 1]);
    }
  }

  /** Transform changes only set transforms: one call per `transformed`
      change, and an entity's transform is set exactly when it had one. */
  lemma {:induction false} TransformOpsCorrect(changes: seq<PropRef>)
    ensures forall k :: 0 <= k < |TransformOps(changes)| ==> TransformOps(changes)[k].TransformSet?
    ensures forall x :: TransformSet(x) in TransformOps(changes) <==> PropRef(x, "transformed") in changes
  {
    if |changes| > 0 {
      var front := changes[..|changes| - 1];
      TransformOpsCorrect(front);
      assert changes == front + [changes[|changes| - 1]];
    }
  }

  predicate TransformsDefined(tr: Translators, scene: Scene, changes: seq<PropRef>)
  {
    forall i :: 0 <= i < |changes| && changes[i].propertyKey == "transformed" ==>
      MatrixDefined(tr, scene, changes[i].entityId, "transformed")
  }

  predicate CamerasDefined(tr: Translators, scene: Scene, changes: seq<PropRef>)
  {
    forall i :: 0 <= i < |changes| && changes[i].propertyKey == "camera" ==>
      MatrixDefined(tr, scene, changes[i].entityId, "camera")
  }

  predicate RebuildsPanicFree(tr: Translators, scene: Scene, changes: seq<PropRef>)
  {
    forall e :: e in StructuralEntities(changes) ==> AddPanicFree(tr, scene, e)
  }

  /** The camera after the batch's camera changes, each overwriting the last. */
  function CameraAfter(tr: Translators, scene: Scene, changes: seq<PropRef>, camera: Matrix4): Matrix4
    requires CamerasDefined(tr, scene, changes)
  {
    if |changes| == 0 then camera
    else
      var c := changes[|changes| - 1];
      if c.propertyKey == "camera" then MatrixOf(tr, scene, c.entityId, "camera")
      else CameraAfter(tr, scene, changes[..|changes| - 1], camera)
  }

  /** The last camera change of the batch decides the camera; with none, it
      is left as it was. */
  lemma {:induction false} LastCameraWins(tr: Translators, scene: Scene, changes: seq<PropRef>, camera: Matrix4, j: nat)
    requires CamerasDefined(tr, scene, changes)
    requires j < |changes| && changes[j].propertyKey == "camera"
    requires forall k :: j < k < |changes| ==> changes[k].propertyKey != "camera"
    ensures CameraAfter(tr, scene, changes, camera) == MatrixOf(tr, scene, changes[j].entityId, "camera")
  {
    if j < |changes| - 1 {
      var front := changes[..|changes| - 1];
      assert front[j] == changes[j];
      LastCameraWins(tr, scene, front, camera, j);
    }
  }

  lemma {:induction false} NoCameraChange(tr: Translators, scene: Scene, changes: seq<PropRef>, camera: Matrix4)
    requires CamerasDefined(tr, scene, changes)
    requires forall k :: 0 <= k < |changes| ==> changes[k].propertyKey != "camera"
    ensures CameraAfter(tr, scene, changes, camera) == camera
  {
    if |changes| > 0 {
      NoCameraChange(tr, scene, changes[..|changes| - 1], camera);
    }
  }

  /** Part way through the rebuild loop: the entities of `order` (those of
      `structural` outside `pending`) are rebuilt, each once, and nothing
      else has changed since `nodes0`, `ops0` and the caches `s0`, `v0`,
      `t0`. */
  ghost predicate RebuildInv(tr: Translators, scene: Scene, structural: set<EntityId>, pending: set<EntityId>,
                             order: seq<EntityId>, nodes0: map<EntityId, RenderNode>, nodes: map<EntityId, RenderNode>,
                             ops0: seq<RenderOp>, ops: seq<RenderOp>,
                             s0: map<Pon, Handle>, s: map<Pon, Handle>, v0: map<Pon, Handle>, v: map<Pon, Handle>,
                             t0: map<Pon, Handle>, t: map<Pon, Handle>)
  {
    && pending <= structural
    && NodesBuilt(tr, scene, structural - pending, nodes, s, v, t)
    && (forall i, j :: 0 <= i < j < |order| ==> order[i] != order[j])
    && (forall x :: x in order <==> x in structural && x !in pending)
    && ops == ops0 + RebuildOps(scene, order)
    && (forall x :: x !in structural || x in pending ==>
          (x in nodes <==> x in nodes0) && (x in nodes ==> nodes[x] == nodes0[x]))
    && Extends(s0, s) && Extends(v0, v) && Extends(t0, t)
  }

  lemma RebuildInvStep(tr: Translators, scene: Scene, structural: set<EntityId>, pending: set<EntityId>,
                       order: seq<EntityId>, nodes0: map<EntityId, RenderNode>, nodes: map<EntityId, RenderNode>,
                       ops0: seq<RenderOp>, ops: seq<RenderOp>,
                       s0: map<Pon, Handle>, s: map<Pon, Handle>, v0: map<Pon, Handle>, v: map<Pon, Handle>,
                       t0: map<Pon, Handle>, t: map<Pon, Handle>,
                       x: EntityId, nodes': map<EntityId, RenderNode>, ops': seq<RenderOp>,
                       s': map<Pon, Handle>, v': map<Pon, Handle>, t': map<Pon, Handle>)
    requires RebuildInv(tr, scene, structural, pending, order, nodes0, nodes, ops0, ops, s0, s, v0, v, t0, t)
    requires x in pending
    requires NodesBuilt(tr, scene, structural - pending + {x}, nodes', s', v', t')
    requires forall y :: y != x ==> (y in nodes' <==> y in nodes) && (y in nodes' ==> nodes'[y] == nodes[y])
    requires ops' == ops + [Removed(x)] + (if Renderable(scene, x) then [Added(x)] else [])
    requires Extends(s, s') && Extends(v, v') && Extends(t, t')
    ensures RebuildInv(tr, scene, structural, pending - {x}, order + [x], nodes0, nodes', ops0, ops', s0, s', v0, v', t0, t')
  {
    assert structural - pending + {x} == structural - (pending - {x});
    RebuildOpsSnoc(scene, order, x);
    assert x !in order;
  }

  // ---------------------------------------------------------------------
  // The caches and the renderer, as the subsystem uses them

  /** A content-addressed resource cache: a descriptor maps to the one shared
      handle built for it. */
  class Cache {
    var entries: map<Pon, Handle>
    var next: Handle
    /** The descriptor each handed-out handle was built for. */
    ghost var owner: map<Handle, Pon>
    ghost var lookups: seq<Pon>

    /** Handles are ones the cache has handed out, each built for the one
        descriptor it is cached under. */
    ghost predicate Valid()
      reads this
    {
      forall k :: k in entries ==> entries[k] < next && entries[k] in owner && owner[entries[k]] == k
    }

    /** Two descriptors never share a handle. */
    lemma Injective(k1: Pon, k2: Pon)
      requires Valid() && k1 in entries && k2 in entries && k1 != k2
      ensures entries[k1] != entries[k2]
    {
    }

    constructor ()
      ensures Valid() && entries == map[] && lookups == []
    {
      entries := map[];
      next := 0;
      owner := map[];
      lookups := [];
    }

    /** `set`: register a resource built elsewhere under `key`. */
    method Set(key: Pon) returns (h: Handle)
      requires Valid()
      modifies this
      ensures Valid()
      ensures entries == old(entries)[key := h] && h !in old(entries).Values
      ensures lookups == old(lookups)
    {
      h := next;
      entries := entries[key := h];
      owner := owner[h := key];
      next := next + 1;
    }

    /** `get`: the shared handle of `key`; on a miss a new resource is built
        and cached. A hit changes nothing. */
    method Get(key: Pon) returns (h: Handle)
      requires Valid()
      modifies this
      ensures Valid() && Extends(old(entries), entries)
      ensures key in entries && h == entries[key]
      ensures key in old(entries) ==> entries == old(entries) && next == old(next)
      ensures key !in old(entries) ==> entries == old(entries)[key := h] && h !in old(entries).Values
      ensures lookups == old(lookups) + [key]
    {
      lookups := lookups + [key];
      if key in entries {
        h := entries[key];
      } else {
        h := next;
        entries := entries[key := h];
        owner := owner[h := key];
        next := next + 1;
      }
    }
  }

  /** The render-node set and the camera. */
  class Renderer {
    var nodes: map<EntityId, RenderNode>
    var camera: Matrix4
    ghost var ops: seq<RenderOp>

    constructor ()
      ensures nodes == map[] && camera == Identity && ops == []
    {
      nodes := map[];
      camera := Identity;
      ops := [];
    }

    method AddNode(node: RenderNode)
      modifies this
      ensures nodes == old(nodes)[node.id := node] && camera == old(camera)
      ensures ops == old(ops) + [Added(node.id)]
    {
      nodes := nodes[node.id := node];
      ops := ops + [Added(node.id)];
    }

    method RemoveNode(id: EntityId)
      modifies this
      ensures nodes == old(nodes) - {id} && camera == old(camera)
      ensures ops == old(ops) + [Removed(id)]
    {
      nodes := nodes - {id};
      ops := ops + [Removed(id)];
    }

    method SetTransform(id: EntityId, transform: Matrix4)
      modifies this
      ensures nodes == if id in old(nodes) then old(nodes)[id := old(nodes)[id].(transform := transform)] else old(nodes)
      ensures camera == old(camera)
      ensures ops == old(ops) + [TransformSet(id)]
    {
      if id in nodes {
        nodes := nodes[id := nodes[id].(transform := transform)];
      }
      ops := ops + [TransformSet(id)];
    }
  }

  // ---------------------------------------------------------------------
  // The subsystem

  class ViewportSubSystem {
    const renderer: Renderer
    const shaderPrograms: Cache
    const vertexArrays: Cache
    const textures: Cache

    ghost predicate Valid()
      reads shaderPrograms, vertexArrays, textures
    {
      shaderPrograms != vertexArrays && shaderPrograms != textures && vertexArrays != textures &&
      shaderPrograms.Valid() && vertexArrays.Valid() && textures.Valid() &&
      BasicShaderKey in shaderPrograms.entries
    }

    /** `new`: empty renderer and caches, with the basic shader program
        registered under `String("basic")`. */
    constructor ()
      ensures Valid()
      ensures fresh(renderer) && fresh(shaderPrograms) && fresh(vertexArrays) && fresh(textures)
      ensures renderer.nodes == map[] && renderer.camera == Identity && renderer.ops == []
      ensures shaderPrograms.entries.Keys == {BasicShaderKey}
      ensures vertexArrays.entries == map[] && textures.entries == map[]
      ensures shaderPrograms.lookups == [] && vertexArrays.lookups == [] && textures.lookups == []
    {
      renderer := new Renderer();
      shaderPrograms := new Cache();
      vertexArrays := new Cache();
      textures := new Cache();
      new;
      var basic := shaderPrograms.Set(BasicShaderKey);
    }

    /** `renderer_add`: build and register the node of `e`, or silently do
        nothing when `e` has no mesh or no texture source. */
    method RendererAdd(tr: Translators, scene: Scene, e: EntityId)
      requires Valid() && AddPanicFree(tr, scene, e)
      modifies renderer, shaderPrograms, vertexArrays, textures
      ensures Valid() && renderer.camera == old(renderer.camera)
      ensures Extends(old(shaderPrograms.entries), shaderPrograms.entries)
      ensures Extends(old(vertexArrays.entries), vertexArrays.entries)
      ensures Extends(old(textures.entries), textures.entries)
      ensures !Renderable(scene, e) ==>
        && renderer.nodes == old(renderer.nodes) && renderer.ops == old(renderer.ops)
        && shaderPrograms.entries == old(shaderPrograms.entries) && shaderPrograms.lookups == old(shaderPrograms.lookups)
        && vertexArrays.entries == old(vertexArrays.entries) && vertexArrays.lookups == old(vertexArrays.lookups)
        && textures.entries == old(textures.entries) && textures.lookups == old(textures.lookups)
      ensures Renderable(scene, e) ==>
        && e in renderer.nodes && renderer.nodes == old(renderer.nodes)[e := renderer.nodes[e]]
        && NodeMatches(renderer.nodes[e], tr, scene, e, shaderPrograms.entries, vertexArrays.entries, textures.entries)
        && renderer.ops == old(renderer.ops) + [Added(e)]
        && shaderPrograms.lookups == old(shaderPrograms.lookups) + [ShaderKey(scene, e)]
        && vertexArrays.lookups == old(vertexArrays.lookups) + [VertexArrayKey(scene, e)]
        && textures.lookups == old(textures.lookups) + SlotKeys(renderer.nodes[e].textures, TextureKeys(scene, e).fields)
      ensures Prop(scene, e, "shader").None? ==> shaderPrograms.entries == old(shaderPrograms.entries)
    {
      var shaderKey: Pon;
      match Prop(scene, e, "shader") {
        case Some(shader) => shaderKey := shader;
        case None => shaderKey := BasicShaderKey;
      }
      var meshKey: Pon;
      match Prop(scene, e, "mesh") {
        case Some(mesh) => meshKey := mesh;
        case None => return;
      }
      var textureKeys: Pon;
      match Prop(scene, e, "textures") {
        case Some(ts) => textureKeys := ts;
        case None =>
          match Prop(scene, e, "diffuse") {
            case Some(diffuse) => textureKeys := Object(map["diffuse" := diffuse]);
            case None => return;
          }
      }
      var glShader := shaderPrograms.Get(shaderKey);
      var glVertexArray := vertexArrays.Get(Array([shaderKey, meshKey]));
      var glTextures := BindTextures(textureKeys.fields);
      var node := RenderNode(
        e, glShader, glVertexArray, glTextures,
        MatrixOf(tr, scene, e, "transformed"), UniformsOf(tr, scene, e), AlphaOf(scene, e));
      renderer.AddNode(node);
    }

    /** The texture loop of `renderer_add`: one cached texture per slot, the
        slots visited in the order the map's iteration picks. */
    method BindTextures(slots: map<string, Pon>) returns (glTextures: seq<(string, Handle)>)
      requires textures.Valid()
      modifies textures
      ensures textures.Valid() && Extends(old(textures.entries), textures.entries)
      ensures SlotsResolved(glTextures, slots, textures.entries)
      ensures textures.lookups == old(textures.lookups) + SlotKeys(glTextures, slots)
    {
      glTextures := [];
      var remaining := slots.Keys;
      while remaining != {}
        invariant textures.Valid() && Extends(old(textures.entries), textures.entries)
        invariant Resolving(glTextures, slots, remaining, textures.entries)
        invariant textures.lookups == old(textures.lookups) + SlotKeys(glTextures, slots)
        decreases remaining
      {
        var name :| name in remaining;
        ghost var cache := textures.entries;
        var glTexture := textures.Get(slots[name]);
        ResolvingStep(glTextures, slots, remaining, cache, textures.entries, name, glTexture);
        glTextures := glTextures + [(name, glTexture)];
        remaining := remaining - {name};
      }
    }

    /** `renderer_remove`: drop the node of `e`, if any. */
    method RendererRemove(e: EntityId)
      modifies renderer
      ensures renderer.nodes == old(renderer.nodes) - {e} && renderer.camera == old(renderer.camera)
      ensures renderer.ops == old(renderer.ops) + [Removed(e)]
    {
      renderer.RemoveNode(e);
    }

    /** `on_property_value_change`: rebuild every structurally changed entity
        once (in some order), then patch each changed transform, then apply
        the camera changes. */
    method OnPropertyValueChange(tr: Translators, scene: Scene, changes: seq<PropRef>) returns (ghost order: seq<EntityId>)
      requires Valid()
      requires RebuildsPanicFree(tr, scene, changes)
      requires TransformsDefined(tr, scene, changes) && CamerasDefined(tr, scene, changes)
      modifies renderer, shaderPrograms, vertexArrays, textures
      ensures Valid()
      ensures forall i, j :: 0 <= i < j < |order| ==> order[i] != order[j]
      ensures forall x :: x in order <==> x in StructuralEntities(changes)
      ensures renderer.ops == old(renderer.ops) + RebuildOps(scene, order) + TransformOps(changes)
      ensures forall x :: x in StructuralEntities(changes) ==> (x in renderer.nodes <==> Renderable(scene, x))
      ensures forall x :: x in StructuralEntities(changes) && x in renderer.nodes ==>
        NodeMatches(renderer.nodes[x], tr, scene, x, shaderPrograms.entries, vertexArrays.entries, textures.entries)
      ensures forall x :: x !in StructuralEntities(changes) ==> (x in renderer.nodes <==> x in old(renderer.nodes))
      ensures forall x :: x !in StructuralEntities(changes) && x in old(renderer.nodes) ==>
        renderer.nodes[x] ==
          if PropRef(x, "transformed") in changes
          then old(renderer.nodes)[x].(transform := MatrixOf(tr, scene, x, "transformed"))
          else old(renderer.nodes)[x]
      ensures renderer.camera == CameraAfter(tr, scene, changes, old(renderer.camera))
      ensures Extends(old(shaderPrograms.entries), shaderPrograms.entries)
      ensures Extends(old(vertexArrays.entries), vertexArrays.entries)
      ensures Extends(old(textures.entries), textures.entries)
      ensures StructuralEntities(changes) == {} ==>
        && shaderPrograms.entries == old(shaderPrograms.entries) && shaderPrograms.lookups == old(shaderPrograms.lookups)
        && vertexArrays.entries == old(vertexArrays.entries) && vertexArrays.lookups == old(vertexArrays.lookups)
        && textures.entries == old(textures.entries) && textures.lookups == old(textures.lookups)
    {
      var structural := StructuralEntities(changes);
      order := Rebuild(tr, scene, structural);
      ghost var rebuilt := renderer.nodes;
      PatchTransforms(tr, scene, changes);
      forall x | x in structural && x in renderer.nodes
        ensures renderer.nodes[x] == rebuilt[x]
      {
        assert rebuilt[x].transform == MatrixOf(tr, scene, x, "transformed");
      }
      ApplyCameras(tr, scene, changes);
    }

    ghost predicate Built(tr: Translators, scene: Scene, done: set<EntityId>)
      reads renderer, shaderPrograms, vertexArrays, textures
    {
      NodesBuilt(tr, scene, done, renderer.nodes, shaderPrograms.entries, vertexArrays.entries, textures.entries)
    }

    /** The body of the rebuild loop: `renderer_remove` then `renderer_add`
        for one entity, keeping the nodes already rebuilt valid. */
    method RebuildOne(tr: Translators, scene: Scene, x: EntityId, ghost done: set<EntityId>)
      requires Valid() && AddPanicFree(tr, scene, x) && Built(tr, scene, done)
      modifies renderer, shaderPrograms, vertexArrays, textures
      ensures Valid() && Built(tr, scene, done + {x})
      ensures forall y :: y != x ==>
        (y in renderer.nodes <==> y in old(renderer.nodes)) &&
        (y in renderer.nodes ==> renderer.nodes[y] == old(renderer.nodes)[y])
      ensures renderer.ops == old(renderer.ops) + [Removed(x)] + (if Renderable(scene, x) then [Added(x)] else [])
      ensures renderer.camera == old(renderer.camera)
      ensures Extends(old(shaderPrograms.entries), shaderPrograms.entries)
      ensures Extends(old(vertexArrays.entries), vertexArrays.entries)
      ensures Extends(old(textures.entries), textures.entries)
    {
      ghost var s, v, t := shaderPrograms.entries, vertexArrays.entries, textures.entries;
      ghost var before := renderer.nodes;
      RendererRemove(x);
      RendererAdd(tr, scene, x);
      forall y | y in done && y != x && y in renderer.nodes
        ensures NodeMatches(renderer.nodes[y], tr, scene, y, shaderPrograms.entries, vertexArrays.entries, textures.entries)
      {
        assert renderer.nodes[y] == before[y];
        NodeMatchesExtends(renderer.nodes[y], tr, scene, y, s, v, t,
                           shaderPrograms.entries, vertexArrays.entries, textures.entries);
      }
    }

    /** The first phase of `on_property_value_change`: remove and re-add each
        entity of `structural` once, in an order the set's iteration picks. */
    method Rebuild(tr: Translators, scene: Scene, structural: set<EntityId>) returns (ghost order: seq<EntityId>)
      requires Valid()
      requires forall e :: e in structural ==> AddPanicFree(tr, scene, e)
      modifies renderer, shaderPrograms, vertexArrays, textures
      ensures Valid() && Built(tr, scene, structural)
      ensures forall i, j :: 0 <= i < j < |order| ==> order[i] != order[j]
      ensures forall x :: x in order <==> x in structural
      ensures renderer.ops == old(renderer.ops) + RebuildOps(scene, order)
      ensures forall x :: x !in structural ==>
        (x in renderer.nodes <==> x in old(renderer.nodes)) &&
        (x in renderer.nodes ==> renderer.nodes[x] == old(renderer.nodes)[x])
      ensures renderer.camera == old(renderer.camera)
      ensures Extends(old(shaderPrograms.entries), shaderPrograms.entries)
      ensures Extends(old(vertexArrays.entries), vertexArrays.entries)
      ensures Extends(old(textures.entries), textures.entries)
      ensures structural == {} ==>
        && shaderPrograms.entries == old(shaderPrograms.entries) && shaderPrograms.lookups == old(shaderPrograms.lookups)
        && vertexArrays.entries == old(vertexArrays.entries) && vertexArrays.lookups == old(vertexArrays.lookups)
        && textures.entries == old(textures.entries) && textures.lookups == old(textures.lookups)
    {
      var pending := structural;
      order := [];
      while pending != {}
        invariant Valid() && renderer.camera == old(renderer.camera)
        invariant RebuildInv(tr, scene, structural, pending, order, old(renderer.nodes), renderer.nodes,
                             old(renderer.ops), renderer.ops,
                             old(shaderPrograms.entries), shaderPrograms.entries, old(vertexArrays.entries), vertexArrays.entries,
                             old(textures.entries), textures.entries)
        invariant pending == structural ==> unchanged(shaderPrograms, vertexArrays, textures)
        decreases pending
      {
        var x :| x in pending;
        ghost var nodes, ops := renderer.nodes, renderer.ops;
        ghost var s, v, t := shaderPrograms.entries, vertexArrays.entries, textures.entries;
        RebuildOne(tr, scene, x, structural - pending);
        RebuildInvStep(tr, scene, structural, pending, order, old(renderer.nodes), nodes, old(renderer.ops), ops,
                       old(shaderPrograms.entries), s, old(vertexArrays.entries), v, old(textures.entries), t,
                       x, renderer.nodes, renderer.ops, shaderPrograms.entries, vertexArrays.entries, textures.entries);
        order := order + [x];
        pending := pending - {x};
      }
    }

    /** The second phase: `set_transform` for each `transformed` change, in
        change order; an entity without a node keeps having none. */
    method PatchTransforms(tr: Translators, scene: Scene, changes: seq<PropRef>)
      requires TransformsDefined(tr, scene, changes)
      modifies renderer
      ensures renderer.ops == old(renderer.ops) + TransformOps(changes)
      ensures renderer.camera == old(renderer.camera)
      ensures forall x :: x in renderer.nodes <==> x in old(renderer.nodes)
      ensures forall x :: x in old(renderer.nodes) ==>
        renderer.nodes[x] ==
          if PropRef(x, "transformed") in changes
          then old(renderer.nodes)[x].(transform := MatrixOf(tr, scene, x, "transformed"))
          else old(renderer.nodes)[x]
    {
      for i := 0 to |changes|
        invariant renderer.ops == old(renderer.ops) + TransformOps(changes[..i])
        invariant renderer.camera == old(renderer.camera)
        invariant forall x :: x in renderer.nodes <==> x in old(renderer.nodes)
        invariant forall x :: x in old(renderer.nodes) ==>
          renderer.nodes[x] ==
            if PropRef(x, "transformed") in changes[..i]
            then old(renderer.nodes)[x].(transform := MatrixOf(tr, scene, x, "transformed"))
            else old(renderer.nodes)[x]
      {
        assert changes[..i + 1] == changes[..i] + [changes[i]];
        assert changes[..i + 1][..i] == changes[..i];
        if changes[i].propertyKey == "transformed" {
          var transform := MatrixOf(tr, scene, changes[i].entityId, "transformed");
          renderer.SetTransform(changes[i].entityId, transform);
        }
      }
      assert changes[..|changes|] == changes;
    }

    /** The third phase: each `camera` change overwrites the camera, in
        change order. */
    method ApplyCameras(tr: Translators, scene: Scene, changes: seq<PropRef>)
      requires CamerasDefined(tr, scene, changes)
      modifies renderer
      ensures renderer.camera == CameraAfter(tr, scene, changes, old(renderer.camera))
      ensures renderer.nodes == old(renderer.nodes) && renderer.ops == old(renderer.ops)
    {
      for i := 0 to |changes|
        invariant renderer.nodes == old(renderer.nodes) && renderer.ops == old(renderer.ops)
        invariant renderer.camera == CameraAfter(tr, scene, changes[..i], old(renderer.camera))
      {
        assert changes[..i + 1][..i] == changes[..i];
        if changes[i].propertyKey == "camera" {
          renderer.camera := MatrixOf(tr, scene, changes[i].entityId, "camera");
        }
      }
      assert changes[..|changes|] == changes;
    }
  }
}
