/**
 * Entity extraction and normalisation (`returnEntities`,
 * `manipulateEntityValues`, `generateCustomEntitiesList` in make_job.py and
 * SentinelSOARJobCreator.py).
 */
module Entities {
  import opened Wrappers
  import opened PyJson
  import Text

  /** A normalised entity: its kind as given, and the value substituted into queries. */
  datatype CustomEntity = CustomEntity(kind: string, entityValue: string)

  /**
   * `incident.get("object", {}).get("properties", {}).get("relatedEntities", [])`:
   * a missing segment falls back to its default; None where `.get` is
   * applied to something that is not a dict (AttributeError).
   */
  function ReturnEntities(incident: Json): (r: Option<Json>)
    ensures r.None? <==>
              || !incident.JObj?
              || ("object" in incident.fields && !incident.fields["object"].JObj?)
              || ("object" in incident.fields && incident.fields["object"].JObj?
                  && "properties" in incident.fields["object"].fields
                  && !incident.fields["object"].fields["properties"].JObj?)
    ensures r.Some? && "object" in incident.fields && "properties" in incident.fields["object"].fields
            && "relatedEntities" in incident.fields["object"].fields["properties"].fields ==>
              r.value == incident.fields["object"].fields["properties"].fields["relatedEntities"]
    ensures r.Some? && !("object" in incident.fields && "properties" in incident.fields["object"].fields
                         && "relatedEntities" in incident.fields["object"].fields["properties"].fields) ==>
              r.value == JArr([])
  {
    if !incident.JObj? then None
    else
      var obj := GetOr(incident.fields, "object", EmptyObj);
      if !obj.JObj? then None
      else
        var properties := GetOr(obj.fields, "properties", EmptyObj);
        if !properties.JObj? then None
        else Some(GetOr(properties.fields, "relatedEntities", JArr([])))
  }

  /** `e.get("properties", {})`, for an entity whose properties are a dict when present. */
  function PropertiesOf(e: map<string, Json>): Json
  {
    GetOr(e, "properties", EmptyObj)
  }

  predicate StringOrAbsent(fields: map<string, Json>, key: string)
  {
    key in fields ==> fields[key].JStr?
  }

  /**
   * The shape the normaliser needs to run without raising: a dict with a
   * string `kind`, and `properties`, when present, a dict whose
   * friendlyName, accountName and upnSuffix, when present, are strings.
   */
  predicate IsEntity(e: Json)
  {
    && e.JObj?
    && "kind" in e.fields && e.fields["kind"].JStr?
    && PropertiesOf(e.fields).JObj?
    && StringOrAbsent(PropertiesOf(e.fields).fields, "friendlyName")
    && StringOrAbsent(PropertiesOf(e.fields).fields, "accountName")
    && StringOrAbsent(PropertiesOf(e.fields).fields, "upnSuffix")
  }

  function Kind(e: Json): string
    requires IsEntity(e)
  {
    e.fields["kind"].s
  }

  /** A string property, "" when absent (absent and empty are both falsy to the Python code). */
  function Property(e: Json, name: string): string
    requires IsEntity(e)
  {
    var value := GetOr(PropertiesOf(e.fields).fields, name, JStr(""));
    if value.JStr? then value.s else ""
  }

  /** `manipulateEntityValues(e)` with its defaults: a user principal name for an Account, else None. */
  function ManipulateEntityValues(e: Json): (r: Option<string>)
    requires IsEntity(e)
    ensures r.Some? <==> Kind(e) == "Account" && Property(e, "accountName") != "" && Property(e, "upnSuffix") != ""
    ensures r.Some? ==>
              var name := Property(e, "accountName");
              && |r.value| == |name| + 1 + |Property(e, "upnSuffix")|
              && r.value[..|name|] == name
              && r.value[|name|] == '@'
              && r.value[|name| + 1..] == Property(e, "upnSuffix")
  {
    if Kind(e) == "Account" && Property(e, "upnSuffix") != "" && Property(e, "accountName") != ""
    then Some(Property(e, "accountName") + "@" + Property(e, "upnSuffix"))
    else None
  }

  /**
   * The entity_value of one entry of `generateCustomEntitiesList`:
   * friendlyName (or ""), overridden by the manipulated value when that is truthy.
   */
  function EntityValue(e: Json): (r: string)
    requires IsEntity(e)
    ensures Kind(e) == "Account" && Property(e, "accountName") != "" && Property(e, "upnSuffix") != "" ==>
              r == Property(e, "accountName") + "@" + Property(e, "upnSuffix")
    ensures !(Kind(e) == "Account" && Property(e, "accountName") != "" && Property(e, "upnSuffix") != "") ==>
              r == Property(e, "friendlyName")
  {
    var manipulated := ManipulateEntityValues(e);
    if manipulated.Some? && manipulated.value != "" then manipulated.value
    else Property(e, "friendlyName")
  }

  predicate AllEntities(entities: seq<Json>)
  {
    forall i :: 0 <= i < |entities| ==> IsEntity(entities[i])
  }

  /** The list `generateCustomEntitiesList` builds. */
  function CustomEntities(entities: seq<Json>): seq<CustomEntity>
    requires AllEntities(entities)
  {
    seq(|entities|, i requires 0 <= i < |entities| => CustomEntity(Kind(entities[i]), EntityValue(entities[i])))
  }

  /** `generateCustomEntitiesList`: one entry per entity, in order, with its kind and derived value. */
  method GenerateCustomEntitiesList(entities: seq<Json>) returns (r: seq<CustomEntity>)
    requires AllEntities(entities)
    ensures |r| == |entities|
    ensures forall i :: 0 <= i < |entities| ==> r[i].kind == Kind(entities[i]) && r[i].entityValue == EntityValue(entities[i])
    ensures r == CustomEntities(entities)
  {
    r := [];
    for i := 0 to |entities|
      invariant |r| == i
      invariant forall j :: 0 <= j < i ==> r[j] == CustomEntity(Kind(entities[j]), EntityValue(entities[j]))
    {
      var entry := CustomEntity(Kind(entities[i]), Property(entities[i], "friendlyName"));
      var manipulated := ManipulateEntityValues(entities[i]);
      if manipulated.Some? && manipulated.value != "" {
        entry := entry.(entityValue := manipulated.value);
      }
      r := r + [entry];
    }
  }

  /** The custom entities whose lower-cased kind is `kind`, in order (the list comprehension selecting jobs). */
  function OfKind(custom: seq<CustomEntity>, kind: string): seq<CustomEntity>
  {
    if custom == [] then []
    else (if Text.Lower(custom[0].kind) == kind then [custom[0]] else []) + OfKind(custom[1..], kind)
  }

  /** Selection keeps exactly the matching entities. */
  lemma {:induction false} OfKindMembers(custom: seq<CustomEntity>, kind: string, x: CustomEntity)
    ensures x in OfKind(custom, kind) <==> x in custom && Text.Lower(x.kind) == kind
  {
    if custom != [] {
      OfKindMembers(custom[1..], kind, x);
      assert custom == [custom[0]] + custom[1..];
    }
  }

  /** Selection distributes over concatenation, so it preserves the input order. */
  lemma {:induction false} OfKindAppend(a: seq<CustomEntity>, b: seq<CustomEntity>, kind: string)
    ensures OfKind(a + b, kind) == OfKind(a, kind) + OfKind(b, kind)
  {
    if a == [] {
      assert a + b == b;
    } else {
      assert (a + b)[0] == a[0];
      assert (a + b)[1..] == a[1..] + b;
      OfKindAppend(a[1..], b, kind);
    }
  }

  /** When some entity has the kind, the selection is not empty. */
  lemma {:induction false} OfKindNonEmpty(custom: seq<CustomEntity>, kind: string, k: nat)
    requires k < |custom| && Text.Lower(custom[k].kind) == kind
    ensures OfKind(custom, kind) != []
  {
    if k > 0 {
      OfKindNonEmpty(custom[1..], kind, k - 1);
    }
  }

  /** A missing object, properties or relatedEntities segment yields the empty list. */
  lemma MissingSegmentGivesEmptyList(incident: map<string, Json>)
    ensures "object" !in incident ==> ReturnEntities(JObj(incident)) == Some(JArr([]))
    ensures "object" in incident && incident["object"].JObj? && "properties" !in incident["object"].fields ==>
              ReturnEntities(JObj(incident)) == Some(JArr([]))
    ensures "object" in incident && incident["object"].JObj? && "properties" in incident["object"].fields
            && incident["object"].fields["properties"].JObj?
            && "relatedEntities" !in incident["object"].fields["properties"].fields ==>
              ReturnEntities(JObj(incident)) == Some(JArr([]))
  {
  }
}
