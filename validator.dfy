/**
 * `validateJobisJob` (make_job.py and SentinelSOARJobCreator.py): checks an
 * enrichment-job descriptor. Three structural checks stop at the first
 * failure; then every `severity_change` entry and `commentOnIncidents` add
 * rule violations, which are joined with ",". A Python exception raised on
 * the way (a wrong type somewhere in the document) is the `Raised` outcome.
 */
module JobValidator {
  import opened Wrappers
  import opened PyJson
  import Text

  /**
   * The two copies of the pipeline. They differ in one line: make_job.py
   * never imports `logging`, so each `logging.error` call before a
   * structural-failure return raises NameError instead.
   */
  datatype Variant = MakeJobPy | SentinelSOARJobCreatorPy {
    predicate ImportsLogging()
    {
      SentinelSOARJobCreatorPy?
    }
  }

  /** What a call of the validator does: raise, or return `(ok, errors)`. */
  datatype Checked = Raised | Verdict(ok: bool, errors: string)

  const MsgNotSoarTrigger := "Job type not SOAR trigger"
  const MsgEntityTypeEmpty := "entity-type empty field"
  const MsgInvalidQuery := "invalid query"
  const MsgCountNotNumber := "Job Error: results_count_mt is not a number"
  const MsgSeverityMissing := "Job Error: Job included severity change but did not specify a Low/Medium/High/Informational"
  const MsgEntityContains := "Job Error: entity_contains requires string"
  const MsgComment := "commentOnIncidents is not true or false"

  const SeverityLevels: seq<Json> := [JStr("Low"), JStr("Medium"), JStr("High"), JStr("Informational")]

  /** The messages a rule check can add. */
  predicate IsRuleMessage(m: string)
  {
    m == MsgCountNotNumber || m == MsgSeverityMissing || m == MsgEntityContains || m == MsgComment
  }

  predicate AllRuleMessages(ms: seq<string>)
  {
    forall i :: 0 <= i < |ms| ==> IsRuleMessage(ms[i])
  }

  /** The first of the three structural checks that fails, in the order the Python code runs them. */
  function StructuralFailure(job: map<string, Json>): Option<string>
  {
    if GetOr(job, "item-type", JNull) != JStr("SOAR-trigger") then Some(MsgNotSoarTrigger)
    else if !Truthy(GetOr(job, "entity-type", JNull)) then Some(MsgEntityTypeEmpty)
    else if !Truthy(GetOr(job, "query", JNull)) then Some(MsgInvalidQuery)
    else None
  }

  /** Python's `value > -1` on the results_count_mt value; None where it raises TypeError. */
  function AboveMinusOne(value: Json): Option<bool>
  {
    match value
    case JInt(n) => Some(n > -1)
    case JReal(x) => Some(x > -1.0)
    case JBool(_) => Some(true)  // False == 0 and True == 1
    case _ => None
  }

  /** `param.get("severity", None) in ["Low", "Medium", "High", "Informational"]`. */
  predicate HasSeverityLevel(param: map<string, Json>)
  {
    GetOr(param, "severity", JNull) in SeverityLevels
  }

  /** The four checks on one dict-shaped severity_change entry, in the order the Python code runs them; None if one raises. */
  function DictEntryMessages(param: map<string, Json>): Option<seq<string>>
  {
    var countMessages :=
      if "results_count_mt" !in param then Some([])
      else match AboveMinusOne(param["results_count_mt"])
        case None => None
        case Some(above) =>
          Some((if above then [] else [MsgCountNotNumber])
               + (if HasSeverityLevel(param) then [] else [MsgSeverityMissing]));
    match countMessages
    case None => None
    case Some(ms) =>
      if "entity_contains" !in param then Some(ms)
      else Some(ms
                + (if Truthy(param["entity_contains"]) then [] else [MsgEntityContains])
                + (if HasSeverityLevel(param) then [] else [MsgSeverityMissing]))
  }

  /**
   * The checks on one severity_change entry of any type. For a list or a
   * string the two `in` tests work, but indexing it or calling `.get` on
   * it raises; for anything else the first `in` test raises.
   */
  function EntryMessages(param: Json): Option<seq<string>>
  {
    match param
    case JObj(fields) => DictEntryMessages(fields)
    case _ =>
      if In("results_count_mt", param) == Some(false) && In("entity_contains", param) == Some(false)
      then Some([])
      else None
  }

  /** The messages of a sequence of entries visited in order; None once one of them raises. */
  function EntriesMessages(entries: seq<Json>): Option<seq<string>>
    decreases |entries|
  {
    if entries == [] then Some([])
    else AndThen(EntriesMessages(entries[..|entries| - 1]), EntryMessages(entries[|entries| - 1]))
  }

  /** The messages so far followed by the next entry's; a raise, once it happens, ends the loop. */
  function AndThen(prior: Option<seq<string>>, next: Option<seq<string>>): Option<seq<string>>
  {
    if prior.Some? && next.Some? then Some(prior.value + next.value) else None
  }

  /** What `for param in severity_change` visits for a list or a string; None where iterating raises. */
  function Iterated(severityChange: Json): Option<seq<Json>>
  {
    match severityChange
    case JArr(xs) => Some(xs)
    case JStr(s) => Some(seq(|s|, i requires 0 <= i < |s| => JStr([s[i]])))
    case _ => None
  }

  /**
   * The messages of the whole severity_change value. Iterating a dict visits
   * its keys, strings that add no message; the loop raises if one of them
   * makes a check raise, and the order of the keys does not matter.
   */
  function SeverityChangeMessages(severityChange: Json): Option<seq<string>>
  {
    match severityChange
    case JObj(m) =>
      if exists k | k in m :: EntryMessages(JStr(k)).None? then None else Some([])
    case _ =>
      match Iterated(severityChange)
      case None => None
      case Some(entries) => EntriesMessages(entries)
  }

  /** The commentOnIncidents check, made only when the value is truthy. */
  function CommentMessages(additionalParams: map<string, Json>): seq<string>
  {
    var comment := GetOr(additionalParams, "commentOnIncidents", JNull);
    if Truthy(comment) && !EqualsBool(comment) then [MsgComment] else []
  }

  /** All rule violations of a structurally valid job, in order; None if a check raises. */
  function RuleMessages(job: map<string, Json>): Option<seq<string>>
  {
    var additional := GetOr(job, "additional_params", EmptyObj);
    if !additional.JObj? then None
    else match SeverityChangeMessages(GetOr(additional.fields, "severity_change", JArr([])))
      case None => None
      case Some(ms) => Some(ms + CommentMessages(additional.fields))
  }

  /** The outcome of `validateJobisJob(job)` in the given copy of the Python code. */
  function JobVerdict(variant: Variant, job: Json): Checked
  {
    match job
    case JObj(fields) =>
      (match StructuralFailure(fields)
       case Some(message) => if variant.ImportsLogging() then Verdict(false, message) else Raised
       case None =>
         match RuleMessages(fields)
         case None => Raised
         case Some(ms) => if ms == [] then Verdict(true, "") else Verdict(false, Text.Join(",", ms)))
    case _ => Raised  // `job.get` on a non-dict
  }

  /** Once an entry raises, the loop over any longer prefix raises too. */
  lemma {:induction false} EntriesMessagesRaisedStays(entries: seq<Json>, n: nat)
    requires n <= |entries|
    requires EntriesMessages(entries[..n]) == None
    ensures EntriesMessages(entries) == None
    decreases |entries| - n
  {
    if n < |entries| {
      assert entries[..n + 1][..n] == entries[..n];
      EntriesMessagesRaisedStays(entries, n + 1);
    } else {
      assert entries[..n] == entries;
    }
  }

  /** The loop over severity_change, appending each entry's messages to the tracked list; None if it raises. */
  method CheckSeverityChange(severityChange: Json) returns (r: Option<seq<string>>)
    ensures r == SeverityChangeMessages(severityChange)
  {
    var track: seq<string> := [];
    if severityChange.JObj? {
      var keys := severityChange.fields.Keys;
      while keys != {}
        invariant keys <= severityChange.fields.Keys
        invariant forall k :: k in severityChange.fields && k !in keys ==> EntryMessages(JStr(k)).Some?
        decreases keys
      {
        var k :| k in keys;
        if EntryMessages(JStr(k)).None? {
          return None;
        }
        keys := keys - {k};
      }
      return Some(track);
    }
    var iterated := Iterated(severityChange);
    if iterated.None? {
      return None;
    }
    var entries := iterated.value;
    for i := 0 to |entries|
      invariant EntriesMessages(entries[..i]) == Some(track)
    {
      assert entries[..i + 1][..i] == entries[..i];
      var m := EntryMessages(entries[i]);
      if m.None? {
        EntriesMessagesRaisedStays(entries, i + 1);
        return None;
      }
      track := track + m.value;
    }
    assert entries[..|entries|] == entries;
    return Some(track);
  }

  /** `validateJobisJob`: the structural checks, then the severity_change loop and the comment check. */
  method ValidateJobIsJob(variant: Variant, job: Json) returns (r: Checked)
    ensures r == JobVerdict(variant, job)
  {
    if !job.JObj? {
      return Raised;
    }
    var fields := job.fields;
    if GetOr(fields, "item-type", JNull) != JStr("SOAR-trigger") {
      if !variant.ImportsLogging() { return Raised; }
      return Verdict(false, MsgNotSoarTrigger);
    }
    if !Truthy(GetOr(fields, "entity-type", JNull)) {
      if !variant.ImportsLogging() { return Raised; }
      return Verdict(false, MsgEntityTypeEmpty);
    }
    if !Truthy(GetOr(fields, "query", JNull)) {
      if !variant.ImportsLogging() { return Raised; }
      return Verdict(false, MsgInvalidQuery);
    }

    var additional := GetOr(fields, "additional_params", EmptyObj);
    if !additional.JObj? {
      return Raised;
    }
    var severityChange := GetOr(additional.fields, "severity_change", JArr([]));
    var checked := CheckSeverityChange(severityChange);
    if checked.None? {
      return Raised;
    }
    var track := checked.value;
    track := track + CommentMessages(additional.fields);
    if track == [] {
      return Verdict(true, "");
    }
    return Verdict(false, Text.Join(",", track));
  }
}
