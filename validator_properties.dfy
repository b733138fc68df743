/** What the job validator promises, stated over `JobVerdict`. */
module JobValidatorProperties {
  import opened Wrappers
  import opened PyJson
  import opened JobValidator
  import Text

  /** A severity_change entry as the job format describes it. */
  predicate WellFormedEntry(param: Json)
  {
    && param.JObj?
    && HasSeverityLevel(param.fields)
    && ("results_count_mt" in param.fields ==>
          param.fields["results_count_mt"].JInt? && param.fields["results_count_mt"].i >= 0)
    && ("entity_contains" in param.fields ==> Truthy(param.fields["entity_contains"]))
  }

  /** A job descriptor as the job format describes it. */
  predicate WellFormedJob(job: Json)
  {
    && job.JObj?
    && StructuralFailure(job.fields) == None
    && ("additional_params" in job.fields ==>
          var additional := job.fields["additional_params"];
          && additional.JObj?
          && ("severity_change" in additional.fields ==>
                var entries := additional.fields["severity_change"];
                entries.JArr? && forall i :: 0 <= i < |entries.items| ==> WellFormedEntry(entries.items[i]))
          && ("commentOnIncidents" in additional.fields ==> additional.fields["commentOnIncidents"].JBool?))
  }

  /**
   * The structural checks run in the order item-type, entity-type, query and
   * stop at the first failure: with `logging` imported the verdict is that
   * single message whatever the other fields hold; without it the call raises.
   */
  lemma StructuralChecksShortCircuit(variant: Variant, job: map<string, Json>)
    ensures GetOr(job, "item-type", JNull) != JStr("SOAR-trigger") ==>
              JobVerdict(variant, JObj(job)) == (if variant.ImportsLogging() then Verdict(false, MsgNotSoarTrigger) else Raised)
    ensures GetOr(job, "item-type", JNull) == JStr("SOAR-trigger") && !Truthy(GetOr(job, "entity-type", JNull)) ==>
              JobVerdict(variant, JObj(job)) == (if variant.ImportsLogging() then Verdict(false, MsgEntityTypeEmpty) else Raised)
    ensures GetOr(job, "item-type", JNull) == JStr("SOAR-trigger") && Truthy(GetOr(job, "entity-type", JNull))
            && !Truthy(GetOr(job, "query", JNull)) ==>
              JobVerdict(variant, JObj(job)) == (if variant.ImportsLogging() then Verdict(false, MsgInvalidQuery) else Raised)
  {
  }

  /** The two copies agree except on a structural failure, where make_job.py raises. */
  lemma CopiesDifferOnlyOnStructuralFailure(job: Json)
    ensures JobVerdict(MakeJobPy, job) != JobVerdict(SentinelSOARJobCreatorPy, job)
            <==> job.JObj? && StructuralFailure(job.fields).Some?
    ensures JobVerdict(MakeJobPy, job) != JobVerdict(SentinelSOARJobCreatorPy, job) ==>
              JobVerdict(MakeJobPy, job) == Raised
              && JobVerdict(SentinelSOARJobCreatorPy, job) == Verdict(false, StructuralFailure(job.fields).value)
  {
  }

  /** The messages of consecutive runs of entries are concatenated in entry order. */
  lemma {:induction false} EntriesMessagesAppend(a: seq<Json>, b: seq<Json>)
    requires EntriesMessages(a).Some? && EntriesMessages(b).Some?
    ensures EntriesMessages(a + b) == Some(EntriesMessages(a).value + EntriesMessages(b).value)
    decreases |b|
  {
    if b == [] {
      assert a + b == a;
      assert EntriesMessages(a).value + [] == EntriesMessages(a).value;
    } else {
      var front, last := b[..|b| - 1], b[|b| - 1];
      EntriesMessagesSplit(b);
      EntriesMessagesAppend(a, front);
      LastOfAppend(a, b);
      var ma, mf, ml := EntriesMessages(a).value, EntriesMessages(front).value, EntryMessages(last).value;
      assert EntriesMessages(a + b) == AndThen(Some(ma + mf), Some(ml));
      MessagesAssociate(ma, mf, ml);
    }
  }

  /** Dropping the last element of `a + b`, for a non-empty `b`. */
  lemma LastOfAppend(a: seq<Json>, b: seq<Json>)
    requires b != []
    ensures a + b != []
    ensures (a + b)[..|a + b| - 1] == a + b[..|b| - 1]
    ensures (a + b)[|a + b| - 1] == b[|b| - 1]
  {
  }

  lemma MessagesAssociate(x: seq<string>, y: seq<string>, z: seq<string>)
    ensures (x + y) + z == x + (y + z)
  {
  }

  /** A non-empty entry list that does not raise: its front does not, its last entry does not, and the messages concatenate. */
  lemma {:induction false} EntriesMessagesSplit(entries: seq<Json>)
    requires entries != [] && EntriesMessages(entries).Some?
    ensures EntriesMessages(entries[..|entries| - 1]).Some?
    ensures EntryMessages(entries[|entries| - 1]).Some?
    ensures EntriesMessages(entries)
            == Some(EntriesMessages(entries[..|entries| - 1]).value + EntryMessages(entries[|entries| - 1]).value)
  {
  }

  /** Every message an entry can add is one of the four rule messages. */
  lemma EntryMessagesAreRuleMessages(param: Json)
    requires EntryMessages(param).Some?
    ensures AllRuleMessages(EntryMessages(param).value)
  {
    if param.JObj? {
      var fields := param.fields;
      var severity: seq<string> := if HasSeverityLevel(fields) then [] else [MsgSeverityMissing];
      var ms: seq<string> := [];
      if "results_count_mt" in fields {
        var above := AboveMinusOne(fields["results_count_mt"]).value;
        ms := (if above then [] else [MsgCountNotNumber]) + severity;
      }
      assert AllRuleMessages(ms);
      if "entity_contains" in fields {
        var contains: seq<string> := if Truthy(fields["entity_contains"]) then [] else [MsgEntityContains];
        RuleMessagesAppend(ms, contains);
        RuleMessagesAppend(ms + contains, severity);
        assert DictEntryMessages(fields).value == ms + contains + severity;
      } else {
        assert DictEntryMessages(fields).value == ms;
      }
    }
  }

  /** A concatenation of rule messages holds only rule messages. */
  lemma RuleMessagesAppend(a: seq<string>, b: seq<string>)
    requires AllRuleMessages(a) && AllRuleMessages(b)
    ensures AllRuleMessages(a + b)
  {
    forall i | 0 <= i < |a + b|
      ensures IsRuleMessage((a + b)[i])
    {
      if i < |a| {
        assert (a + b)[i] == a[i];
      } else {
        assert (a + b)[i] == b[i - |a|];
      }
    }
  }

  lemma {:induction false} EntriesMessagesAreRuleMessages(entries: seq<Json>)
    requires EntriesMessages(entries).Some?
    ensures AllRuleMessages(EntriesMessages(entries).value)
    decreases |entries|
  {
    if entries != [] {
      EntriesMessagesAreRuleMessages(entries[..|entries| - 1]);
      EntryMessagesAreRuleMessages(entries[|entries| - 1]);
    }
  }

  lemma RuleMessagesAreRuleMessages(job: map<string, Json>)
    requires RuleMessages(job).Some?
    ensures AllRuleMessages(RuleMessages(job).value)
  {
    var additional := GetOr(job, "additional_params", EmptyObj);
    var severityChange := GetOr(additional.fields, "severity_change", JArr([]));
    if !severityChange.JObj? {
      EntriesMessagesAreRuleMessages(Iterated(severityChange).value);
    }
  }

  /** A job is accepted exactly when its error string is empty. */
  lemma VerdictOkIffNoErrors(variant: Variant, job: Json)
    requires JobVerdict(variant, job).Verdict?
    ensures JobVerdict(variant, job).ok <==> JobVerdict(variant, job).errors == ""
  {
    if StructuralFailure(job.fields).None? {
      var ms := RuleMessages(job.fields).value;
      RuleMessagesAreRuleMessages(job.fields);
      Text.JoinEmptyIff(",", ms);
    }
  }

  /** An entry with a non-negative integer count and an allowed severity adds no message. */
  lemma WellFormedEntryAddsNothing(param: Json)
    requires WellFormedEntry(param)
    ensures EntryMessages(param) == Some([])
  {
    var fields := param.fields;
    if "results_count_mt" in fields {
      assert AboveMinusOne(fields["results_count_mt"]) == Some(true);
    }
    assert DictEntryMessages(fields).Some?;
    if "entity_contains" in fields {
      assert Truthy(fields["entity_contains"]);
      assert DictEntryMessages(fields).value == [];
    } else {
      assert DictEntryMessages(fields).value == [];
    }
  }

  /** A negative integer count makes the count message the entry's first message. */
  lemma NegativeCountReported(param: map<string, Json>, n: int)
    requires "results_count_mt" in param && param["results_count_mt"] == JInt(n) && n < 0
    ensures DictEntryMessages(param).Some?
    ensures |DictEntryMessages(param).value| >= 1 && DictEntryMessages(param).value[0] == MsgCountNotNumber
  {
  }

  /**
   * An entry with both a count that compares with -1 without raising (an
   * int, float or bool) and entity_contains, but no allowed severity, gets
   * the severity message twice.
   */
  lemma SeverityMessageTwice(param: map<string, Json>)
    requires "results_count_mt" in param && AboveMinusOne(param["results_count_mt"]).Some?
    requires "entity_contains" in param
    requires !HasSeverityLevel(param)
    ensures DictEntryMessages(param).Some?
    ensures multiset(DictEntryMessages(param).value)[MsgSeverityMissing] == 2
  {
  }

  /** A truthy commentOnIncidents is accepted exactly when it equals True or False. */
  lemma CommentOnIncidentsChecked(additional: map<string, Json>)
    ensures "commentOnIncidents" !in additional ==> CommentMessages(additional) == []
    ensures "commentOnIncidents" in additional && !Truthy(additional["commentOnIncidents"]) ==> CommentMessages(additional) == []
    ensures "commentOnIncidents" in additional && Truthy(additional["commentOnIncidents"]) ==>
              (CommentMessages(additional) == [] <==> additional["commentOnIncidents"] in [JBool(true), JInt(1), JReal(1.0)])
    ensures forall s :: "commentOnIncidents" in additional && additional["commentOnIncidents"] == JStr(s) && s != "" ==>
              CommentMessages(additional) == [MsgComment]
  {
  }

  lemma {:induction false} WellFormedEntriesAddNothing(entries: seq<Json>)
    requires forall i :: 0 <= i < |entries| ==> WellFormedEntry(entries[i])
    ensures EntriesMessages(entries) == Some([])
    decreases |entries|
  {
    if entries != [] {
      WellFormedEntriesAddNothing(entries[..|entries| - 1]);
      WellFormedEntryAddsNothing(entries[|entries| - 1]);
      var none: seq<string> := [];
      assert none + none == none;
      assert EntriesMessages(entries) == Some(none + none);
    }
  }

  /** Every well-formed job descriptor is accepted, with an empty error string, by both copies. */
  lemma WellFormedJobAccepted(variant: Variant, job: Json)
    requires WellFormedJob(job)
    ensures JobVerdict(variant, job) == Verdict(true, "")
  {
    var additional := GetOr(job.fields, "additional_params", EmptyObj);
    var severityChange := GetOr(additional.fields, "severity_change", JArr([]));
    WellFormedEntriesAddNothing(severityChange.items);
  }

  /**
   * The shape shown in the module docstring, a dict instead of a list of
   * entries, raises: iterating it visits the key "results_count_mt", and
   * indexing that string with a string is a TypeError.
   */
  lemma DictShapedSeverityChangeRaises(variant: Variant, job: map<string, Json>)
    requires StructuralFailure(job) == None
    requires "additional_params" in job
    requires job["additional_params"] == JObj(map["severity_change" := JObj(map["results_count_mt" := JInt(1), "severity" := JStr("High")])])
    ensures JobVerdict(variant, JObj(job)) == Raised
  {
    var key := "results_count_mt";
    KeyAsEntryRaises(key);
    var severityChange := JObj(map["results_count_mt" := JInt(1), "severity" := JStr("High")]);
    assert key in severityChange.fields;
    assert SeverityChangeMessages(severityChange) == None;
    assert RuleMessages(job) == None;
  }

  /** The sample enrichment job of the unit tests: a url job with one Informational severity entry. */
  function SampleJob(query: string): Json
  {
    JObj(map[
      "item-type" := JStr("SOAR-trigger"),
      "entity-type" := JStr("url"),
      "query" := JStr(query),
      "additional_params" := JObj(map["severity_change" := JArr([JObj(map["results_count_mt" := JInt(1), "severity" := JStr("Informational")])])])
    ])
  }

  /** The sample job is accepted, with no errors, whatever its (non-empty) query text. */
  lemma SampleJobAccepted(variant: Variant, query: string)
    requires query != ""
    ensures JobVerdict(variant, SampleJob(query)) == Verdict(true, "")
  {
    var entry := JObj(map["results_count_mt" := JInt(1), "severity" := JStr("Informational")]);
    assert HasSeverityLevel(entry.fields);
    assert WellFormedEntry(entry);
    WellFormedJobAccepted(variant, SampleJob(query));
  }

  /** A string entry containing "results_count_mt" passes the `in` test and then raises on indexing. */
  lemma KeyAsEntryRaises(key: string)
    requires key == "results_count_mt"
    ensures EntryMessages(JStr(key)).None?
  {
    assert Text.OccursAt(key, key, 0);
    assert In("results_count_mt", JStr(key)) == Some(true);
  }
}
