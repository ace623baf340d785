/** Entities and their component bags (core/components/entity.ts). An entity
    method that fires one of the simulation's hooks returns the new entity
    together with the hooks it fired, in order; the simulation appends them
    to its hook log. */
module Entities {
  import opened Wrappers
  import opened Components
  import CD = Cooldowns
  import K = Kinds

  datatype Entity = Entity(
    id: int,
    components: map<K.ComponentKind, Component>,
    cooldowns: CD.Cooldowns,
    tags: set<string>,
    deleted: bool,
    componentsMask: nat)

  /** An entity as `new Entity()` leaves it before registration; the id is a
      placeholder that registration overwrites. */
  const Blank: Entity := Entity(0, map[], CD.Empty, {}, false, 0)

  /** Every component is stored under its own kind. */
  ghost predicate WellKeyed(e: Entity) {
    forall k :: k in e.components ==> e.components[k].Kind() == k
  }

  /** A query's result lists no entity id twice. */
  predicate ListedOnce(ids: seq<int>) {
    forall i, j :: 0 <= i < j < |ids| ==> ids[i] != ids[j]
  }

  /** The first id of a list with no repeats is not among the rest, and the
      rest has no repeats either. */
  lemma ListedOnceTail(ids: seq<int>)
    requires ListedOnce(ids) && |ids| > 0
    ensures ids[0] !in ids[1..] && ListedOnce(ids[1..])
  {
  }

  /** The step from the rest of a pass to the whole of it, for a pass whose
      operation on each listed id is `g`: the first id's result joined to
      what the rest already gives. */
  lemma PassJoin(ids: seq<int>, g: int -> Result<Entity>, r: Result<map<int, Entity>>)
    requires |ids| > 0 && g(ids[0]).Success?
    requires r.Success? ==> ids[0] in r.value && r.value[ids[0]] == g(ids[0]).value
    requires r.Success? <==> forall i :: 1 <= i < |ids| ==> g(ids[i]).Success?
    requires r.Success? ==> forall i :: 1 <= i < |ids| ==> ids[i] in r.value && r.value[ids[i]] == g(ids[i]).value
    ensures r.Success? <==> forall i :: 0 <= i < |ids| ==> g(ids[i]).Success?
    ensures r.Success? ==> forall i :: 0 <= i < |ids| ==> ids[i] in r.value && r.value[ids[i]] == g(ids[i]).value
  {
  }

  /** The step from the rest of a pass to the whole of it, for a pass that
      applies `f` to each listed entity and leaves the others alone. */
  lemma PassStep(es: map<int, Entity>, ids: seq<int>, f: Entity -> Result<Entity>, e: Entity,
                 r: Result<map<int, Entity>>)
    requires |ids| > 0 && ids[0] in es && f(es[ids[0]]) == Success(e)
    requires ids[0] !in ids[1..]
    requires var es' := es[ids[0] := e];
      && (r.Success? ==> r.value.Keys == es.Keys && r.value[ids[0]] == e)
      && (r.Success? <==> forall i :: 0 <= i < |ids[1..]| ==> ids[1..][i] in es' && f(es'[ids[1..][i]]).Success?)
      && (r.Success? ==> forall i :: 0 <= i < |ids[1..]| ==> r.value[ids[1..][i]] == f(es'[ids[1..][i]]).value)
    ensures r.Success? <==> forall i :: 0 <= i < |ids| ==> ids[i] in es && f(es[ids[i]]).Success?
    ensures r.Success? ==> forall i :: 0 <= i < |ids| ==> r.value[ids[i]] == f(es[ids[i]]).value
  {
    var es' := es[ids[0] := e];
    forall i | 1 <= i < |ids| ensures ids[1..][i - 1] == ids[i] && (ids[i] in es ==> es'[ids[i]] == es[ids[i]]) {
      assert ids[i] in ids[1..];
    }
  }

  datatype Hook =
    | AddComponentHook(entityId: int, kind: K.ComponentKind)
    | RemoveComponentHook(entityId: int, kind: K.ComponentKind)
    | AddTagHook(entityId: int, tag: string)
    | RemoveEntityHook(entity: Entity)

  /** The entity after a mutation, and the hooks the mutation fired. */
  datatype Step = Step(entity: Entity, hooks: seq<Hook>)

  /** `hasComponents(names)`: `names.every(name => !!components[name])`. A
      component is an object, so a present one is always truthy. */
  function HasComponents(e: Entity, names: seq<K.ComponentKind>): bool
  {
    if |names| == 0 then true
    else names[0] in e.components && HasComponents(e, names[1..])
  }

  /** `hasComponents` holds iff every listed component is present; in
      particular the empty list yields true. */
  lemma {:induction false} HasComponentsIff(e: Entity, names: seq<K.ComponentKind>)
    ensures HasComponents(e, names) <==> forall i :: 0 <= i < |names| ==> names[i] in e.components
  {
    if |names| > 0 {
      HasComponentsIff(e, names[1..]);
      assert forall i :: 1 <= i < |names| ==> names[i] == names[1..][i - 1];
    }
  }

  /** `requireComponents(names)`: the same entity when every listed component is
      present, else `MissingComponentError`. */
  function RequireComponents(e: Entity, names: seq<K.ComponentKind>): (r: Result<Entity>)
    ensures r.Success? <==> forall i :: 0 <= i < |names| ==> names[i] in e.components
    ensures r.Success? ==> r.value == e
    ensures r.Failure? ==> r.error == MissingComponentError(e.id)
  {
    HasComponentsIff(e, names);
    if HasComponents(e, names) then Success(e) else Failure(MissingComponentError(e.id))
  }

  /** `addComponent(c)`: store `c` under its own kind, overwriting any previous
      value, and fire the `addComponent` hook once. */
  function AddComponent(e: Entity, c: Component): (r: Step)
    ensures r.entity.components.Keys == e.components.Keys + {c.Kind()}
    ensures r.entity.components[c.Kind()] == c
    ensures forall k :: k in e.components && k != c.Kind() ==> r.entity.components[k] == e.components[k]
    ensures r.entity.id == e.id && r.entity.tags == e.tags && r.entity.cooldowns == e.cooldowns
    ensures r.hooks == [AddComponentHook(e.id, c.Kind())]
  {
    Step(e.(components := e.components[c.Kind() := c]), [AddComponentHook(e.id, c.Kind())])
  }

  /** `removeComponent(kind)`: delete the key (nothing to delete is no error)
      and fire the `removeComponent` hook once. */
  function RemoveComponent(e: Entity, kind: K.ComponentKind): (r: Step)
    ensures r.entity.components.Keys == e.components.Keys - {kind}
    ensures forall k :: k in e.components && k != kind ==> r.entity.components[k] == e.components[k]
    ensures r.entity.id == e.id && r.entity.tags == e.tags && r.entity.cooldowns == e.cooldowns
    ensures r.hooks == [RemoveComponentHook(e.id, kind)]
  {
    Step(e.(components := e.components - {kind}), [RemoveComponentHook(e.id, kind)])
  }

  /** `addTag(tag)` (the method is not in the shown entity file; it is taken to
      add the tag to the set and fire the `addTag` hook). */
  function AddTag(e: Entity, tag: string): (r: Step)
    ensures r.entity.tags == e.tags + {tag}
    ensures r.entity.components == e.components && r.entity.id == e.id
    ensures r.hooks == [AddTagHook(e.id, tag)]
  {
    Step(e.(tags := e.tags + {tag}), [AddTagHook(e.id, tag)])
  }

  /** Apply a chain of `addComponent` calls, collecting the hooks in order. */
  function AddComponents(e: Entity, cs: seq<Component>): (r: Step)
    ensures |r.hooks| == |cs|
    ensures forall i :: 0 <= i < |cs| ==> r.hooks[i] == AddComponentHook(e.id, cs[i].Kind())
    ensures r.entity == e.(components := Apply(e.components, cs))
    decreases |cs|
  {
    if |cs| == 0 then Step(e, [])
    else
      var first := AddComponent(e, cs[0]);
      var rest := AddComponents(first.entity, cs[1..]);
      Step(rest.entity, first.hooks + rest.hooks)
  }

  /** Adding then removing a component the entity lacked gives the entity back. */
  lemma AddThenRemove(e: Entity, c: Component)
    requires c.Kind() !in e.components
    ensures RemoveComponent(AddComponent(e, c).entity, c.Kind()).entity == e
  {
    var e' := RemoveComponent(AddComponent(e, c).entity, c.Kind()).entity;
    assert e'.components == e.components;
  }

  /** After `addComponent(c)` the entity has the component; after
      `removeComponent(k)` it has not, and no other presence test changes. */
  lemma PresenceAfterMutation(e: Entity, c: Component, k: K.ComponentKind, names: seq<K.ComponentKind>)
    ensures HasComponents(AddComponent(e, c).entity, [c.Kind()])
    ensures !HasComponents(RemoveComponent(e, k).entity, [k])
    ensures (forall i :: 0 <= i < |names| ==> names[i] != k) ==>
      (HasComponents(RemoveComponent(e, k).entity, names) <==> HasComponents(e, names))
  {
    HasComponentsIff(AddComponent(e, c).entity, [c.Kind()]);
    HasComponentsIff(RemoveComponent(e, k).entity, [k]);
    HasComponentsIff(RemoveComponent(e, k).entity, names);
    HasComponentsIff(e, names);
  }

  /** The first half of `unregister()`: the entity is marked deleted. */
  function MarkDeleted(e: Entity): (r: Entity)
    ensures r.deleted && r.id == e.id && r.components == e.components
  {
    e.(deleted := true)
  }

  /** `EntityComponents.toJSON()`: each component without its live-object
      fields, keyed by kind. The model lists the kinds in declaration order,
      where the object it serialises keeps the order in which components
      were added; loading copies the entries back by kind and ors their
      masks together, so nothing that loads a saved entity depends on the
      order. */
  function ComponentsToJSON(cs: map<K.ComponentKind, Component>): (r: seq<(K.ComponentKind, Component)>)
    ensures forall i :: 0 <= i < |r| ==> r[i].0 in cs && r[i].1 == cs[r[i].0].Strip()
    ensures forall k :: k in cs ==> exists i :: 0 <= i < |r| && r[i].0 == k
    ensures forall i, j :: 0 <= i < j < |r| ==> r[i].0 != r[j].0
  {
    var all := K.AllKinds();
    forall i, j | 0 <= i < j < |all| ensures all[i] != all[j] {
      K.KindAtInverse(i);
      K.KindAtInverse(j);
    }
    ListPresentFacts(cs, all, 0);
    assert all[0..] == all;
    ListPresent(cs, all, 0)
  }

  /** The entries of `cs` for the kinds `all[from..]`, in that order. */
  function ListPresent(cs: map<K.ComponentKind, Component>, all: seq<K.ComponentKind>, from: nat): seq<(K.ComponentKind, Component)>
    requires from <= |all|
    decreases |all| - from
  {
    if from == |all| then []
    else if all[from] in cs then [(all[from], cs[all[from]].Strip())] + ListPresent(cs, all, from + 1)
    else ListPresent(cs, all, from + 1)
  }

  lemma {:induction false} ListPresentFacts(cs: map<K.ComponentKind, Component>, all: seq<K.ComponentKind>, from: nat)
    requires from <= |all|
    requires forall i, j :: 0 <= i < j < |all| ==> all[i] != all[j]
    ensures forall i :: 0 <= i < |ListPresent(cs, all, from)| ==>
      ListPresent(cs, all, from)[i].0 in cs &&
      ListPresent(cs, all, from)[i].1 == cs[ListPresent(cs, all, from)[i].0].Strip()
    ensures forall i :: 0 <= i < |ListPresent(cs, all, from)| ==> ListPresent(cs, all, from)[i].0 in all[from..]
    ensures forall k :: k in cs && k in all[from..] ==>
      exists i :: 0 <= i < |ListPresent(cs, all, from)| && ListPresent(cs, all, from)[i].0 == k
    ensures forall i, j :: 0 <= i < j < |ListPresent(cs, all, from)| ==>
      ListPresent(cs, all, from)[i].0 != ListPresent(cs, all, from)[j].0
    decreases |all| - from
  {
    if from < |all| {
      ListPresentFacts(cs, all, from + 1);
      var rest := ListPresent(cs, all, from + 1);
      var r := ListPresent(cs, all, from);
      assert forall k :: k in all[from..] ==> k == all[from] || k in all[from + 1..] by {
        forall k | k in all[from..] ensures k == all[from] || k in all[from + 1..] {
          var i :| 0 <= i < |all[from..]| && all[from..][i] == k;
          if i > 0 { assert all[from + 1..][i - 1] == k; }
        }
      }
      assert forall k :: k in all[from + 1..] ==> k in all[from..] by {
        forall k | k in all[from + 1..] ensures k in all[from..] {
          var i :| 0 <= i < |all[from + 1..]| && all[from + 1..][i] == k;
          assert all[from..][i + 1] == k;
        }
      }
      assert all[from] !in all[from + 1..];
      if all[from] in cs {
        assert r == [(all[from], cs[all[from]].Strip())] + rest;
        forall j | 1 <= j < |r| ensures r[j] == rest[j - 1] { }
        forall k | k in cs && k in all[from..] ensures exists i :: 0 <= i < |r| && r[i].0 == k {
          if k != all[from] {
            var i :| 0 <= i < |rest| && rest[i].0 == k;
            assert r[i + 1].0 == k;
          } else {
            assert r[0].0 == k;
          }
        }
        forall i, j | 0 <= i < j < |r| ensures r[i].0 != r[j].0 {
          if i > 0 { assert r[i] == rest[i - 1] && r[j] == rest[j - 1]; }
          else { assert r[j] == rest[j - 1]; }
        }
        forall i | 0 <= i < |r| ensures r[i].0 in all[from..] {
          if i > 0 { assert r[i] == rest[i - 1]; }
        }
      } else {
        assert r == rest;
        forall k | k in cs && k in all[from..] ensures exists i :: 0 <= i < |r| && r[i].0 == k {
          assert k in all[from + 1..];
        }
      }
    }
  }

  /** The serialised form of an entity. `tags` is `None` when the JSON has no
      `tags` field; tag order is irrelevant because loading rebuilds a set. */
  datatype EntityJSON = EntityJSON(
    components: seq<(K.ComponentKind, Component)>,
    cooldowns: CD.Cooldowns,
    id: int,
    tags: Option<set<string>>)

  /** `Entity.toJSON()` as written: `pick(this, ["components", "cooldowns", "id"])`.
      The tag set is not among the picked fields. */
  function ToJSONAsWritten(e: Entity): (j: EntityJSON)
    ensures j.id == e.id && j.cooldowns == e.cooldowns && j.tags.None?
  {
    EntityJSON(ComponentsToJSON(e.components), e.cooldowns, e.id, None)
  }

  /** `Entity.toJSON()` with `tags` among the picked fields, as loading expects. */
  function ToJSON(e: Entity): (j: EntityJSON)
    ensures j.id == e.id && j.cooldowns == e.cooldowns && j.tags == Some(e.tags)
  {
    EntityJSON(ComponentsToJSON(e.components), e.cooldowns, e.id, Some(e.tags))
  }

  /** The component bag after `addComponent` of each of `cs` in turn. */
  function Apply(m: map<K.ComponentKind, Component>, cs: seq<Component>): map<K.ComponentKind, Component>
    decreases |cs|
  {
    if |cs| == 0 then m else Apply(m[cs[0].Kind() := cs[0]], cs[1..])
  }

  /** Adding a list is adding its first component, then the rest. */
  lemma ApplyCons(m: map<K.ComponentKind, Component>, c: Component, rest: seq<Component>)
    ensures Apply(m, [c] + rest) == Apply(m[c.Kind() := c], rest)
  {
    assert ([c] + rest)[1..] == rest;
  }

  lemma {:induction false} ApplyKeys(m: map<K.ComponentKind, Component>, cs: seq<Component>)
    ensures Apply(m, cs).Keys == m.Keys + KindsOf(cs)
    decreases |cs|
  {
    if |cs| > 0 {
      ApplyKeys(m[cs[0].Kind() := cs[0]], cs[1..]);
      KindsOfFirst(cs);
    }
  }

  /** With pairwise distinct kinds, each added component is stored under its
      kind and every other entry is kept. */
  lemma {:induction false} ApplyDistinct(m: map<K.ComponentKind, Component>, cs: seq<Component>)
    requires forall i, j :: 0 <= i < j < |cs| ==> cs[i].Kind() != cs[j].Kind()
    ensures Apply(m, cs).Keys == m.Keys + KindsOf(cs)
    ensures forall i :: 0 <= i < |cs| ==> Apply(m, cs)[cs[i].Kind()] == cs[i]
    ensures forall k :: k in m && k !in KindsOf(cs) ==> Apply(m, cs)[k] == m[k]
    decreases |cs|
  {
    ApplyKeys(m, cs);
    if |cs| > 0 {
      var m' := m[cs[0].Kind() := cs[0]];
      ApplyDistinct(m', cs[1..]);
      ApplyKeys(m', cs[1..]);
      KindsOfFirst(cs);
      forall i | 0 <= i < |cs| ensures Apply(m, cs)[cs[i].Kind()] == cs[i] {
        if i > 0 {
          assert cs[1..][i - 1] == cs[i];
        } else {
          assert cs[0].Kind() !in KindsOf(cs[1..]);
        }
      }
    }
  }

  /** The kinds of a list of components. */
  function KindsOf(cs: seq<Component>): set<K.ComponentKind> {
    set i | 0 <= i < |cs| :: cs[i].Kind()
  }

  lemma KindsOfFirst(cs: seq<Component>)
    requires |cs| > 0
    ensures KindsOf(cs) == {cs[0].Kind()} + KindsOf(cs[1..])
  {
    forall k | k in KindsOf(cs) ensures k in {cs[0].Kind()} + KindsOf(cs[1..]) {
      var i :| 0 <= i < |cs| && cs[i].Kind() == k;
      if i > 0 { assert cs[1..][i - 1].Kind() == k; }
    }
    forall k | k in KindsOf(cs[1..]) ensures k in KindsOf(cs) {
      var i :| 0 <= i < |cs[1..]| && cs[1..][i].Kind() == k;
      assert cs[i + 1].Kind() == k;
    }
  }
}
