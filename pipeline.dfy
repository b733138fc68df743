/**
 * The orchestration of `main_make_job` (make_job.py) and `main_funct`
 * (SentinelSOARJobCreator.py): extract entities and validate the job inside
 * a catch-all try block, return early with 202, 400 or 418, then normalise
 * the entities, select those of the job's entity type and substitute each
 * one's value for `%ENTITY%` in the query.
 */
module JobPipeline {
  import opened Wrappers
  import opened PyJson
  import opened JobValidator
  import opened Entities
  import Text

  /** A copied custom entity with the query to run for it. */
  datatype Job = Job(entity: CustomEntity, queryToRun: string)

  /** RETURN_PAYLOAD. The Python code's distinct_entities is `list(set(...))`, whose order is unspecified. */
  datatype Envelope = Envelope(
    jobs: seq<Job>,
    distinctEntities: set<string>,
    friendlyEntities: seq<string>,
    customisedEntities: seq<CustomEntity>,
    warnings: string,
    errors: string,
    status: string)

  datatype Response = Response(envelope: Envelope, code: int)

  const InitialEnvelope := Envelope([], {}, [], [], "", "", "")
  const Placeholder := "%ENTITY%"
  const MsgNoEntities := "no entities in incident"
  const MsgSchema := "incorrect schema or malformed payload"
  const StatusWarnings := "1:see_warnings,"
  const StatusErrors := "2:see_errors,"
  const StatusTypeAbsent := "0:job entity type not in sentinel incident"
  const StatusOk := "0:ok"

  function Incident(payload: map<string, Json>): Json
  {
    GetOr(payload, "sentinel_incident", EmptyObj)
  }

  function EnrichmentJob(payload: map<string, Json>): Json
  {
    GetOr(payload, "enrichment_job", EmptyObj)
  }

  /**
   * The try block and what it leaves behind: the envelope so far and the
   * early-return code, None when the pipeline goes on.
   */
  function Screen(variant: Variant, payload: map<string, Json>): (Envelope, Option<int>)
  {
    match ReturnEntities(Incident(payload))
    case None => (InitialEnvelope.(errors := MsgSchema), Some(418))
    case Some(entities) =>
      var warned :=
        if Truthy(entities) then InitialEnvelope
        else InitialEnvelope.(warnings := MsgNoEntities, status := StatusWarnings);
      var code := if Truthy(entities) then None else Some(202);
      match JobVerdict(variant, EnrichmentJob(payload))
      case Raised => (warned.(errors := warned.errors + MsgSchema), Some(418))
      case Verdict(ok, errors) =>
        if ok then (warned, code)
        else (warned.(status := warned.status + StatusErrors, errors := warned.errors + errors), Some(400))
  }

  /** The pipeline gets past the error processing to the entity lists. */
  predicate PassesScreen(variant: Variant, payload: map<string, Json>)
  {
    Screen(variant, payload).1.None?
  }

  /** The shape of an entity at the point where friendlyName is read without a default. */
  predicate IsListedEntity(e: Json)
  {
    && IsEntity(e)
    && "properties" in e.fields
    && "friendlyName" in PropertiesOf(e.fields).fields
  }

  predicate AllListedEntities(entities: seq<Json>)
  {
    forall i :: 0 <= i < |entities| ==> IsListedEntity(entities[i])
  }

  /**
   * What the code after the try block needs in order not to raise (that part
   * has no handler): a list of entities with kind and friendlyName, a string
   * entity-type, and a string query when some entity has that type.
   */
  predicate AfterScreenInputs(payload: map<string, Json>)
  {
    var entities := ReturnEntities(Incident(payload));
    var job := EnrichmentJob(payload);
    && entities.Some? && entities.value.JArr?
    && AllListedEntities(entities.value.items)
    && job.JObj? && "entity-type" in job.fields && job.fields["entity-type"].JStr?
    && (Text.Lower(job.fields["entity-type"].s) in DistinctKinds(entities.value.items) ==>
          "query" in job.fields && job.fields["query"].JStr?)
  }

  /** DISTINCT_ENTITY_TYPES: the lower-cased kinds. */
  function DistinctKinds(entities: seq<Json>): set<string>
    requires AllListedEntities(entities)
  {
    set i | 0 <= i < |entities| :: Text.Lower(Kind(entities[i]))
  }

  /** FRIENDLY_ENTITY_TYPES: `friendlyName:kind` per entity, kind lower-cased. */
  function FriendlyNames(entities: seq<Json>): seq<string>
    requires AllListedEntities(entities)
  {
    seq(|entities|, i requires 0 <= i < |entities| =>
      Property(entities[i], "friendlyName") + ":" + Text.Lower(Kind(entities[i])))
  }

  /** The query to run for one entity: every `%ENTITY%` replaced by the entity's value. */
  function QueryFor(query: string, entity: CustomEntity): string
  {
    Text.ReplaceAll(query, Placeholder, entity.entityValue)
  }

  /** ENTITIES_WITH_JOBS: a copy of each selected entity with its query. */
  function Materialise(selected: seq<CustomEntity>, query: string): seq<Job>
  {
    seq(|selected|, i requires 0 <= i < |selected| => Job(selected[i], QueryFor(query, selected[i])))
  }

  /** The response `(RETURN_PAYLOAD, code)` of the pipeline on a payload dict. */
  function MakeJob(variant: Variant, payload: map<string, Json>): Response
    requires PassesScreen(variant, payload) ==> AfterScreenInputs(payload)
  {
    var (screened, code) := Screen(variant, payload);
    if code.Some? then Response(screened, code.value)
    else
      var entities := ReturnEntities(Incident(payload)).value.items;
      var job := EnrichmentJob(payload).fields;
      var custom := CustomEntities(entities);
      var listed := screened.(distinctEntities := DistinctKinds(entities),
                              friendlyEntities := FriendlyNames(entities),
                              customisedEntities := custom);
      var kind := Text.Lower(job["entity-type"].s);
      if kind !in listed.distinctEntities then
        Response(listed.(status := StatusTypeAbsent), 202)
      else
        Response(listed.(jobs := Materialise(OfKind(custom, kind), job["query"].s), status := StatusOk), 200)
  }

  /** The try block: extract the entities and validate the job, recording warnings, errors and the early-return code. */
  method ScreenPayload(variant: Variant, payload: map<string, Json>) returns (envelope: Envelope, errorCode: Option<int>)
    ensures (envelope, errorCode) == Screen(variant, payload)
  {
    envelope := InitialEnvelope;
    errorCode := None;
    var extracted := ReturnEntities(Incident(payload));
    if extracted.None? {
      envelope := envelope.(errors := envelope.errors + MsgSchema);
      errorCode := Some(418);
      assert "" + MsgSchema == MsgSchema;
      return;
    }
    if !Truthy(extracted.value) {
      envelope := envelope.(warnings := envelope.warnings + MsgNoEntities);
      envelope := envelope.(status := envelope.status + StatusWarnings);
      errorCode := Some(202);
    }
    assert "" + MsgNoEntities == MsgNoEntities && "" + StatusWarnings == StatusWarnings;
    assert envelope == if Truthy(extracted.value) then InitialEnvelope
                       else InitialEnvelope.(warnings := MsgNoEntities, status := StatusWarnings);
    var checked := ValidateJobIsJob(variant, EnrichmentJob(payload));
    if checked.Raised? {
      envelope := envelope.(errors := envelope.errors + MsgSchema);
      errorCode := Some(418);
    } else if !checked.ok {
      envelope := envelope.(status := envelope.status + StatusErrors);
      envelope := envelope.(errors := envelope.errors + checked.errors);
      errorCode := Some(400);
    }
  }

  /** The loop over the copied entities, giving each one its query. */
  method AttachQueries(selected: seq<CustomEntity>, query: string) returns (jobs: seq<Job>)
    ensures |jobs| == |selected|
    ensures forall i :: 0 <= i < |selected| ==> jobs[i].entity == selected[i] && jobs[i].queryToRun == QueryFor(query, selected[i])
    ensures jobs == Materialise(selected, query)
  {
    jobs := [];
    for i := 0 to |selected|
      invariant |jobs| == i
      invariant forall j :: 0 <= j < i ==> jobs[j] == Job(selected[j], QueryFor(query, selected[j]))
    {
      jobs := jobs + [Job(selected[i], Text.ReplaceAll(query, Placeholder, selected[i].entityValue))];
    }
  }

  /** `main_make_job(payload)` / `main_funct(payload)`, mutating the envelope step by step. */
  method MainMakeJob(variant: Variant, payload: map<string, Json>) returns (envelope: Envelope, code: int)
    requires PassesScreen(variant, payload) ==> AfterScreenInputs(payload)
    ensures Response(envelope, code) == MakeJob(variant, payload)
  {
    var errorCode;
    envelope, errorCode := ScreenPayload(variant, payload);
    if errorCode.Some? {
      return envelope, errorCode.value;
    }

    var entities := ReturnEntities(Incident(payload)).value.items;
    var job := EnrichmentJob(payload).fields;
    var distinct := DistinctKinds(entities);
    var friendly := FriendlyNames(entities);
    var manipulated := GenerateCustomEntitiesList(entities);
    envelope := envelope.(distinctEntities := distinct);
    envelope := envelope.(friendlyEntities := friendly);
    envelope := envelope.(customisedEntities := manipulated);

    var kind := Text.Lower(job["entity-type"].s);
    if kind !in distinct {
      envelope := envelope.(status := StatusTypeAbsent);
      return envelope, 202;
    }

    var selected := OfKind(manipulated, kind);
    var withJobs := AttachQueries(selected, job["query"].s);
    envelope := envelope.(jobs := withJobs);
    envelope := envelope.(status := StatusOk);
    return envelope, 200;
  }
}
