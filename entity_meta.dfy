/**
 * Deciding whether a configuration ID names a config entity, from the
 * entity-type definitions of the registry (`getConfigEntityMeta`).
 */
module EntityMeta {
  import opened Results
  import opened Strings

  /** The separator between the segments of a configuration ID. */
  const Dot: char := '.'

  /**
   * What classification reads of an entity-type definition: the module
   * that provides it, its config prefix ("" when it declares none) and
   * its own type identifier.
   */
  datatype EntityTypeDef = EntityTypeDef(provider: string, configPrefix: string, id: string)

  /** The entity type and entity ID a configuration ID stands for. */
  datatype Meta = Meta(entityType: string, entityId: string)

  /** The middle segment a definition claims: its config prefix, or its own id when it has none. */
  function ClaimedSegment(def: EntityTypeDef): (segment: string)
  {
    if def.configPrefix != [] then def.configPrefix else def.id
  }

  /** The filter applied to each definition once the ID has three segments. */
  predicate Matches(def: EntityTypeDef, parts: seq<string>)
    requires |parts| == 3
  {
    if def.provider != parts[0] then false
    else if def.configPrefix != [] then parts[1] == def.configPrefix
    else parts[1] == def.id
  }

  /** `a` is `b` with some elements left out, the rest kept in their order. */
  ghost predicate Subsequence<T>(a: seq<T>, b: seq<T>)
    decreases |b|
  {
    a == [] || (b != [] && ((a[0] == b[0] && Subsequence(a[1..], b[1..])) || Subsequence(a, b[1..])))
  }

  /** The definitions that pass the filter, in registry order. */
  function Matching(defs: seq<EntityTypeDef>, parts: seq<string>): (kept: seq<EntityTypeDef>)
    requires |parts| == 3
    ensures |kept| <= |defs|
    ensures Subsequence(kept, defs)
    ensures forall d :: d in kept ==> d in defs && Matches(d, parts)
    ensures forall i :: 0 <= i < |defs| && Matches(defs[i], parts) ==> defs[i] in kept
  {
    if defs == [] then []
    else
      var rest := Matching(defs[1..], parts);
      if Matches(defs[0], parts) then
        assert ([defs[0]] + rest)[1..] == rest;
        [defs[0]] + rest
      else
        rest
  }

  /**
   * Classification of a configuration ID: `None` for simple configuration,
   * otherwise the entity type of the first matching definition and the
   * third segment as the entity ID.
   */
  function GetConfigEntityMeta(defs: seq<EntityTypeDef>, id: string): (meta: Option<Meta>)
    ensures meta.Some? ==> Dot !in meta.value.entityId
    ensures meta.Some? ==> exists d :: d in defs && d.id == meta.value.entityType
  {
    var parts := Explode(id, Dot);
    if |parts| != 3 then None
    else
      var kept := Matching(defs, parts);
      if |kept| == 0 then None
      else
        assert kept[0] in kept;
        Some(Meta(kept[0].id, parts[2]))
  }

  /** The types the entity storage factory can resolve: those of the registry's definitions. */
  function RegisteredTypes(defs: seq<EntityTypeDef>): (types: set<string>)
    ensures forall i :: 0 <= i < |defs| ==> defs[i].id in types
    ensures forall t :: t in types ==> exists d :: d in defs && d.id == t
  {
    set d | d in defs :: d.id
  }

  /** An ID with other than exactly two dots is simple configuration, whatever the definitions. */
  lemma ClassifyNeedsTwoDots(defs: seq<EntityTypeDef>, id: string)
    requires multiset(id)[Dot] != 2
    ensures GetConfigEntityMeta(defs, id) == None
  {
    ExplodeCount(id, Dot);
  }

  /** The first matching definition heads the filtered list. */
  lemma {:induction false} FirstMatchHeadsMatching(defs: seq<EntityTypeDef>, parts: seq<string>, i: nat)
    requires |parts| == 3
    requires i < |defs| && Matches(defs[i], parts)
    requires forall j :: 0 <= j < i ==> !Matches(defs[j], parts)
    ensures |Matching(defs, parts)| > 0 && Matching(defs, parts)[0] == defs[i]
  {
    if i > 0 {
      assert !Matches(defs[0], parts);
      FirstMatchHeadsMatching(defs[1..], parts, i - 1);
    }
  }

  /**
   * First match wins: when definition `i` matches and none before it does,
   * the ID is that definition's type with the third segment as entity ID.
   */
  lemma ClassifyFirstMatch(defs: seq<EntityTypeDef>, id: string, i: nat)
    requires |Explode(id, Dot)| == 3
    requires i < |defs| && Matches(defs[i], Explode(id, Dot))
    requires forall j :: 0 <= j < i ==> !Matches(defs[j], Explode(id, Dot))
    ensures GetConfigEntityMeta(defs, id) == Some(Meta(defs[i].id, Explode(id, Dot)[2]))
  {
    FirstMatchHeadsMatching(defs, Explode(id, Dot), i);
  }

  /**
   * An ID is a config entity exactly when it has three segments and some
   * definition matches them; three segments alone are not enough.
   */
  lemma ClassifyIsEntityIff(defs: seq<EntityTypeDef>, id: string)
    ensures GetConfigEntityMeta(defs, id).Some? <==>
      |Explode(id, Dot)| == 3 && exists i :: 0 <= i < |defs| && Matches(defs[i], Explode(id, Dot))
  {
    var parts := Explode(id, Dot);
    if |parts| == 3 && GetConfigEntityMeta(defs, id).Some? {
      var kept := Matching(defs, parts);
      assert kept[0] in kept;
      var i :| 0 <= i < |defs| && defs[i] == kept[0];
      assert Matches(defs[i], parts);
    }
  }

  /**
   * A config entity ID is rebuilt from its parts: the provider of a
   * definition of the returned type, the segment that definition claims,
   * and the entity ID, joined by dots.
   */
  lemma ClassifiedIdShape(defs: seq<EntityTypeDef>, id: string)
    requires GetConfigEntityMeta(defs, id).Some?
    ensures var m := GetConfigEntityMeta(defs, id).value;
      exists d :: d in defs && d.id == m.entityType &&
        id == d.provider + [Dot] + ClaimedSegment(d) + [Dot] + m.entityId
  {
    var parts := Explode(id, Dot);
    var kept := Matching(defs, parts);
    assert kept[0] in kept;
    var d := kept[0];
    assert Implode(parts, Dot) == parts[0] + [Dot] + Implode(parts[1..], Dot);
    assert parts[1..][1..] == [parts[2]];
    assert id == d.provider + [Dot] + ClaimedSegment(d) + [Dot] + parts[2];
  }

  /** A 4-segment ID is simple configuration even when its prefix names an entity type. */
  lemma FourSegmentsIsSimple()
    ensures GetConfigEntityMeta([EntityTypeDef("system", "", "action")], "system.action.a.b") == None
  {
    ClassifyNeedsTwoDots([EntityTypeDef("system", "", "action")], "system.action.a.b");
  }

  /**
   * Empty segments are kept: `a..b` has three segments, its middle one
   * empty, and it is a config entity only for a definition whose id is
   * empty.
   */
  lemma EmptyMiddleSegment()
    ensures Explode("a..b", Dot) == ["a", "", "b"]
    ensures GetConfigEntityMeta([EntityTypeDef("a", "", "x")], "a..b") == None
    ensures GetConfigEntityMeta([EntityTypeDef("a", "", "x"), EntityTypeDef("a", "", "")], "a..b")
      == Some(Meta("", "b"))
  {
    ExplodeImplode(["a", "", "b"], Dot);
    assert Implode(["a", "", "b"], Dot) == "a..b";
  }
}
