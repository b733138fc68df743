/** What the job pipeline promises, stated over `MakeJob`. */
module JobPipelineProperties {
  import opened Wrappers
  import opened PyJson
  import opened JobValidator
  import opened Entities
  import opened JobPipeline
  import Text

  /** Every run ends with one of the four documented codes. */
  lemma ResultCodes(variant: Variant, payload: map<string, Json>)
    requires PassesScreen(variant, payload) ==> AfterScreenInputs(payload)
    ensures MakeJob(variant, payload).code in {200, 202, 400, 418}
    ensures MakeJob(variant, payload).code == 200 <==> MakeJob(variant, payload).envelope.jobs != []
  {
    var r := MakeJob(variant, payload);
    if PassesScreen(variant, payload) {
      var entities := ReturnEntities(Incident(payload)).value.items;
      var custom := CustomEntities(entities);
      var kind := Text.Lower(EnrichmentJob(payload).fields["entity-type"].s);
      if kind in DistinctKinds(entities) {
        var k :| 0 <= k < |entities| && Text.Lower(Kind(entities[k])) == kind;
        OfKindNonEmpty(custom, kind, k);
      }
    }
  }

  /** An exception in extraction or validation gives 418 with the generic schema error and no jobs. */
  lemma ExceptionGives418(variant: Variant, payload: map<string, Json>)
    requires ReturnEntities(Incident(payload)).None? || JobVerdict(variant, EnrichmentJob(payload)).Raised?
    ensures MakeJob(variant, payload).code == 418
    ensures MakeJob(variant, payload).envelope.errors == MsgSchema
    ensures MakeJob(variant, payload).envelope.jobs == []
  {
  }

  /**
   * A job failing a structural check: make_job.py raises NameError inside
   * the try block and answers 418; SentinelSOARJobCreator.py answers 400
   * with the check's single message.
   */
  lemma StructuralFailureByCopy(variant: Variant, payload: map<string, Json>)
    requires ReturnEntities(Incident(payload)).Some?
    requires EnrichmentJob(payload).JObj? && StructuralFailure(EnrichmentJob(payload).fields).Some?
    ensures variant == MakeJobPy ==>
              MakeJob(variant, payload).code == 418 && MakeJob(variant, payload).envelope.errors == MsgSchema
    ensures variant == SentinelSOARJobCreatorPy ==>
              MakeJob(variant, payload).code == 400
              && MakeJob(variant, payload).envelope.errors == StructuralFailure(EnrichmentJob(payload).fields).value
  {
  }

  /** The two copies answer alike unless the job fails a structural check. */
  lemma CopiesAgreeOtherwise(payload: map<string, Json>)
    requires !(EnrichmentJob(payload).JObj? && StructuralFailure(EnrichmentJob(payload).fields).Some?)
    requires PassesScreen(MakeJobPy, payload) ==> AfterScreenInputs(payload)
    ensures PassesScreen(SentinelSOARJobCreatorPy, payload) ==> AfterScreenInputs(payload)
    ensures MakeJob(MakeJobPy, payload) == MakeJob(SentinelSOARJobCreatorPy, payload)
  {
    assert JobVerdict(MakeJobPy, EnrichmentJob(payload)) == JobVerdict(SentinelSOARJobCreatorPy, EnrichmentJob(payload));
  }

  /** No related entities and a valid job: 202 with the warning, and every list empty. */
  lemma NoEntitiesWarning(variant: Variant, payload: map<string, Json>)
    requires ReturnEntities(Incident(payload)).Some? && !Truthy(ReturnEntities(Incident(payload)).value)
    requires JobVerdict(variant, EnrichmentJob(payload)).Verdict? && JobVerdict(variant, EnrichmentJob(payload)).ok
    ensures MakeJob(variant, payload) ==
              Response(Envelope([], {}, [], [], "no entities in incident", "", "1:see_warnings,"), 202)
  {
  }

  /** An invalid job: 400 with the validator's string; the status also flags a missing entity list. */
  lemma InvalidJobGives400(variant: Variant, payload: map<string, Json>)
    requires ReturnEntities(Incident(payload)).Some?
    requires JobVerdict(variant, EnrichmentJob(payload)).Verdict? && !JobVerdict(variant, EnrichmentJob(payload)).ok
    ensures MakeJob(variant, payload).code == 400
    ensures MakeJob(variant, payload).envelope.errors == JobVerdict(variant, EnrichmentJob(payload)).errors
    ensures MakeJob(variant, payload).envelope.status ==
              if Truthy(ReturnEntities(Incident(payload)).value) then "2:see_errors," else "1:see_warnings,2:see_errors,"
    ensures MakeJob(variant, payload).envelope.jobs == []
  {
    var entities := ReturnEntities(Incident(payload)).value;
    var errors := JobVerdict(variant, EnrichmentJob(payload)).errors;
    var warned :=
      if Truthy(entities) then InitialEnvelope
      else InitialEnvelope.(warnings := MsgNoEntities, status := StatusWarnings);
    assert Screen(variant, payload) == (warned.(status := warned.status + StatusErrors, errors := warned.errors + errors), Some(400));
    EarlyReturn(variant, payload);
    assert "" + errors == errors;
  }

  /** An early-return code from the try block is the response. */
  lemma EarlyReturn(variant: Variant, payload: map<string, Json>)
    requires Screen(variant, payload).1.Some?
    ensures MakeJob(variant, payload) == Response(Screen(variant, payload).0, Screen(variant, payload).1.value)
  {
  }

  /** The job's entity type is not among the incident's kinds: 202, no jobs, the entity lists still filled in. */
  lemma EntityTypeAbsent(variant: Variant, payload: map<string, Json>)
    requires PassesScreen(variant, payload) && AfterScreenInputs(payload)
    requires Text.Lower(EnrichmentJob(payload).fields["entity-type"].s)
             !in DistinctKinds(ReturnEntities(Incident(payload)).value.items)
    ensures var entities := ReturnEntities(Incident(payload)).value.items;
            MakeJob(variant, payload) == Response(
              Envelope([], DistinctKinds(entities), FriendlyNames(entities), CustomEntities(entities),
                       "", "", "0:job entity type not in sentinel incident"), 202)
  {
  }

  /**
   * Success: 200 and "0:ok"; the jobs are, in order, exactly the normalised
   * entities of the job's entity type, never none, each with the query in
   * which `%ENTITY%` is replaced by its value; the normalised list itself
   * is left as it was.
   */
  lemma SuccessfulRun(variant: Variant, payload: map<string, Json>)
    requires PassesScreen(variant, payload) && AfterScreenInputs(payload)
    requires Text.Lower(EnrichmentJob(payload).fields["entity-type"].s)
             in DistinctKinds(ReturnEntities(Incident(payload)).value.items)
    ensures var entities := ReturnEntities(Incident(payload)).value.items;
            var kind := Text.Lower(EnrichmentJob(payload).fields["entity-type"].s);
            var query := EnrichmentJob(payload).fields["query"].s;
            var r := MakeJob(variant, payload);
            && r.code == 200
            && r.envelope.status == "0:ok" && r.envelope.warnings == "" && r.envelope.errors == ""
            && r.envelope.customisedEntities == CustomEntities(entities)
            && r.envelope.jobs != []
            && |r.envelope.jobs| == |OfKind(CustomEntities(entities), kind)|
            && (forall i :: 0 <= i < |r.envelope.jobs| ==>
                  r.envelope.jobs[i].entity == OfKind(CustomEntities(entities), kind)[i]
                  && r.envelope.jobs[i].queryToRun == Text.ReplaceAll(query, "%ENTITY%", r.envelope.jobs[i].entity.entityValue))
            && (forall e :: e in CustomEntities(entities) && Text.Lower(e.kind) == kind <==>
                  exists i :: 0 <= i < |r.envelope.jobs| && r.envelope.jobs[i].entity == e)
  {
    var entities := ReturnEntities(Incident(payload)).value.items;
    var kind := Text.Lower(EnrichmentJob(payload).fields["entity-type"].s);
    var custom := CustomEntities(entities);
    var selected := OfKind(custom, kind);
    SuccessResponse(variant, payload);
    var k :| 0 <= k < |entities| && Text.Lower(Kind(entities[k])) == kind;
    OfKindNonEmpty(custom, kind, k);
    forall e
      ensures e in custom && Text.Lower(e.kind) == kind <==> exists i :: 0 <= i < |selected| && selected[i] == e
    {
      OfKindMembers(custom, kind, e);
    }
  }

  /** The response of a run that reaches the job list. */
  lemma SuccessResponse(variant: Variant, payload: map<string, Json>)
    requires PassesScreen(variant, payload) && AfterScreenInputs(payload)
    requires Text.Lower(EnrichmentJob(payload).fields["entity-type"].s)
             in DistinctKinds(ReturnEntities(Incident(payload)).value.items)
    ensures var entities := ReturnEntities(Incident(payload)).value.items;
            var kind := Text.Lower(EnrichmentJob(payload).fields["entity-type"].s);
            MakeJob(variant, payload) == Response(
              Envelope(Materialise(OfKind(CustomEntities(entities), kind), EnrichmentJob(payload).fields["query"].s),
                       DistinctKinds(entities), FriendlyNames(entities), CustomEntities(entities), "", "", StatusOk), 200)
  {
  }

  /** A query without the placeholder is run unchanged for every matching entity. */
  lemma QueryWithoutPlaceholder(variant: Variant, payload: map<string, Json>)
    requires PassesScreen(variant, payload) && AfterScreenInputs(payload)
    requires var job := EnrichmentJob(payload).fields;
             "query" in job && job["query"].JStr? && !Text.Contains(job["query"].s, "%ENTITY%")
    ensures forall j :: j in MakeJob(variant, payload).envelope.jobs ==>
              j.queryToRun == EnrichmentJob(payload).fields["query"].s
  {
    var query := EnrichmentJob(payload).fields["query"].s;
    forall value: string {
      Text.ReplaceAbsent(query, Placeholder, value);
    }
  }

  /**
   * In every response that gets past the try block, distinct_entities holds
   * exactly the incident's lower-cased kinds, and friendly_entities pairs
   * each entity's friendlyName with its lower-cased kind, one per entity, in
   * incident order.
   */
  lemma EntityLists(variant: Variant, payload: map<string, Json>)
    requires PassesScreen(variant, payload) && AfterScreenInputs(payload)
    ensures var entities := ReturnEntities(Incident(payload)).value.items;
            var envelope := MakeJob(variant, payload).envelope;
            && (forall t :: t in envelope.distinctEntities <==>
                  exists i :: 0 <= i < |entities| && Text.Lower(Kind(entities[i])) == t)
            && |envelope.friendlyEntities| == |entities|
            && (forall i :: 0 <= i < |entities| ==>
                  envelope.friendlyEntities[i] == Property(entities[i], "friendlyName") + ":" + Text.Lower(Kind(entities[i])))
  {
    var entities := ReturnEntities(Incident(payload)).value.items;
    var envelope := MakeJob(variant, payload).envelope;
    assert envelope.distinctEntities == DistinctKinds(entities);
    assert envelope.friendlyEntities == FriendlyNames(entities);
  }
}
