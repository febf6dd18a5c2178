/**
 * The ECS kernel: component signatures, entity handles, the per-system entity
 * list and the registry's entity counter with its pending-add set
 * (src/ecs/ecs.h, src/ecs/ecs.cpp).
 */
module Ecs {

  /** Number of bit positions in a signature: the most component types supported. */
  const MAX_COMPONENTS: nat := 32

  /** A fixed-width bitset: bit i is set when component type i is present (or required). */
  type Signature = s: seq<bool> | |s| == MAX_COMPONENTS witness seq(32, _ => false)

  /** The all-zero signature a default-constructed bitset holds. */
  function EmptySignature(): (s: Signature)
    ensures forall i :: 0 <= i < MAX_COMPONENTS ==> !s[i]
  {
    seq(MAX_COMPONENTS, _ => false)
  }

  /** Bitwise and of two signatures. */
  function And(a: Signature, b: Signature): (r: Signature)
    ensures forall i :: 0 <= i < MAX_COMPONENTS ==> (r[i] <==> a[i] && b[i])
  {
    seq(MAX_COMPONENTS, i requires 0 <= i < MAX_COMPONENTS => a[i] && b[i])
  }

  /**
   * The match rule the header states: an entity has what a system requires
   * when every bit set in the system's signature is also set in the entity's.
   */
  ghost predicate HasRequired(entitySignature: Signature, systemSignature: Signature)
  {
    forall i :: 0 <= i < MAX_COMPONENTS && systemSignature[i] ==> entitySignature[i]
  }

  /** The bitwise test (entity & system) == system decides exactly the stated rule. */
  lemma MaskTestIsMatchRule(entitySignature: Signature, systemSignature: Signature)
    ensures And(entitySignature, systemSignature) == systemSignature
            <==> HasRequired(entitySignature, systemSignature)
  {
    var r := And(entitySignature, systemSignature);
    if HasRequired(entitySignature, systemSignature) {
      assert forall i :: 0 <= i < MAX_COMPONENTS ==> r[i] == systemSignature[i];
    }
    if r == systemSignature {
      forall i | 0 <= i < MAX_COMPONENTS && systemSignature[i]
        ensures entitySignature[i]
      {
        assert r[i];
      }
    }
  }

  /** Every entity has what the empty signature requires. */
  lemma EmptySignatureMatchesAll(entitySignature: Signature)
    ensures And(entitySignature, EmptySignature()) == EmptySignature()
  {
    MaskTestIsMatchRule(entitySignature, EmptySignature());
  }

  /** An entity is an integer id; two handles are equal exactly when their ids are. */
  datatype Entity = Entity(id: int)
  {
    /** Entity::get_id: the id the handle was constructed with. */
    function GetId(): (r: int)
      ensures Entity(r) == this
    {
      id
    }
  }

  /** The list left by erase(remove_if(..., == entity)): every other element, in order. */
  function RemoveAll(s: seq<Entity>, entity: Entity): (r: seq<Entity>)
    ensures |r| <= |s|
  {
    if s == [] then []
    else RemoveAll(s[..|s| - 1], entity) + (if s[|s| - 1] == entity then [] else [s[|s| - 1]])
  }

  lemma {:induction false} RemoveAllMembers(s: seq<Entity>, entity: Entity, x: Entity)
    ensures x in RemoveAll(s, entity) <==> x in s && x != entity
  {
    if s != [] {
      RemoveAllMembers(s[..|s| - 1], entity, x);
      assert s == s[..|s| - 1] + [s[|s| - 1]];
    }
  }

  /** After removal the entity does not occur in the list. */
  lemma RemoveAllRemoves(s: seq<Entity>, entity: Entity)
    ensures entity !in RemoveAll(s, entity)
  {
    RemoveAllMembers(s, entity, entity);
  }

  /** Removing an entity that is not present leaves the list unchanged. */
  lemma {:induction false} RemoveAllAbsent(s: seq<Entity>, entity: Entity)
    requires entity !in s
    ensures RemoveAll(s, entity) == s
  {
    if s != [] {
      RemoveAllAbsent(s[..|s| - 1], entity);
      assert s == s[..|s| - 1] + [s[|s| - 1]];
    }
  }

  /**
   * Removal distributes over concatenation, so the relative order of the
   * remaining entities is kept (remove_if is stable).
   */
  lemma {:induction false} RemoveAllAppend(a: seq<Entity>, b: seq<Entity>, entity: Entity)
    ensures RemoveAll(a + b, entity) == RemoveAll(a, entity) + RemoveAll(b, entity)
  {
    if b == [] {
      assert a + b == a;
    } else {
      assert (a + b)[..|a + b| - 1] == a + b[..|b| - 1];
      RemoveAllAppend(a, b[..|b| - 1], entity);
    }
  }

  /** Exactly the occurrences of the entity are deleted; every other entity keeps its count. */
  lemma {:induction false} RemoveAllCounts(s: seq<Entity>, entity: Entity)
    ensures multiset(RemoveAll(s, entity)) == multiset(s)[entity := 0]
  {
    if s != [] {
      var init := s[..|s| - 1];
      RemoveAllCounts(init, entity);
      assert s == init + [s[|s| - 1]];
    }
  }

  /** Appending an absent entity and then removing it restores the list. */
  lemma AddThenRemove(s: seq<Entity>, entity: Entity)
    requires entity !in s
    ensures RemoveAll(s + [entity], entity) == s
  {
    assert (s + [entity])[..|s|] == s;
    RemoveAllAbsent(s, entity);
  }

  /** A system: the signature of the components it requires and the entities it processes. */
  class System {
    var componentSignature: Signature
    var entities: seq<Entity>

    /** System() = default: an all-zero signature and an empty entity list. */
    constructor ()
      ensures componentSignature == EmptySignature() && entities == []
    {
      componentSignature := EmptySignature();
      entities := [];
    }

    /** push_back: the entity goes at the end; nothing before it moves. */
    method AddEntityToSystem(entity: Entity)
      modifies this`entities
      ensures entities == old(entities) + [entity]
    {
      entities := entities + [entity];
    }

    /** erase(remove_if(...)): a stable compaction pass dropping every element equal to the entity. */
    method RemoveEntityFromSystem(entity: Entity)
      modifies this`entities
      ensures entities == RemoveAll(old(entities), entity)
      ensures entity !in entities
      ensures entity !in old(entities) ==> entities == old(entities)
    {
      var kept: seq<Entity> := [];
      var i := 0;
      while i < |entities|
        invariant 0 <= i <= |entities|
        invariant kept == RemoveAll(entities[..i], entity)
      {
        assert entities[..i + 1][..i] == entities[..i];
        if entities[i] != entity {
          kept := kept + [entities[i]];
        }
        i := i + 1;
      }
      assert entities[..i] == entities;
      RemoveAllRemoves(entities, entity);
      if entity !in entities {
        RemoveAllAbsent(entities, entity);
      }
      entities := kept;
    }

    /** get_system_entities: a copy of the list; the system is not changed. */
    method GetSystemEntities() returns (r: seq<Entity>)
      ensures r == entities
    {
      r := entities;
    }

    /** get_component_signature: the required-components signature. */
    method GetComponentSignature() returns (r: Signature)
      ensures r == componentSignature
    {
      r := componentSignature;
    }
  }

  /**
   * The registry as far as the kernel defines it: a counter of created entities
   * and the set of entities waiting to be added to systems.
   */
  class Registry {
    var numEntities: int
    var entitiesToBeAdded: set<Entity>
    /** Every entity created so far, in creation order. */
    ghost var created: seq<Entity>

    ghost predicate Valid()
      reads this
    {
      && numEntities == |created|
      && (forall i :: 0 <= i < |created| ==> created[i].id == i)
      && (forall e :: e in entitiesToBeAdded ==> e in created)
    }

    constructor ()
      ensures Valid()
      ensures numEntities == 0 && entitiesToBeAdded == {} && created == []
    {
      numEntities := 0;
      entitiesToBeAdded := {};
      created := [];
    }

    /**
     * create_entity: the id is the old counter, the counter goes up by one and the
     * new entity joins the pending-add set. The id was never handed out before.
     */
    method CreateEntity() returns (entity: Entity)
      requires Valid()
      modifies this
      ensures Valid()
      ensures entity.id == old(numEntities) && numEntities == old(numEntities) + 1
      ensures entity !in old(created) && created == old(created) + [entity]
      ensures entitiesToBeAdded == old(entitiesToBeAdded) + {entity}
    {
      var entityId := numEntities;
      numEntities := numEntities + 1;
      entity := Entity(entityId);
      entitiesToBeAdded := entitiesToBeAdded + {entity};
      created := created + [entity];
    }

    /** Registry::Update is still a stub: no registry state changes. */
    method Update()
      ensures numEntities == old(numEntities) && entitiesToBeAdded == old(entitiesToBeAdded)
    {
    }
  }

  /** Ids handed out by a registry are 0, 1, 2, ... and pairwise distinct. */
  lemma CreatedIdsDistinct(r: Registry, i: int, j: int)
    requires r.Valid()
    requires 0 <= i < j < |r.created|
    ensures r.created[i] != r.created[j]
  {
    assert r.created[i].id == i && r.created[j].id == j;
  }
}
