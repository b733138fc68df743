# SentinelSoarEngine: a Dafny model of the job creator and the share-link builder

SentinelSoarEngine is a set of Azure Functions used from Microsoft Sentinel
playbooks. The model covers its two computational parts.

**The enrichment-job creator.** This is `main_make_job` in `make_job.py` and
`main_funct` in `SentinelSOARJobCreator.py`.
- It takes a payload holding a Sentinel incident and an enrichment job.
- It extracts the incident's related entities with `returnEntities`.
- It checks the job with `validateJobisJob`.
- It normalises each entity with `generateCustomEntitiesList` and
  `manipulateEntityValues`. An Account with an accountName and a upnSuffix
  becomes `name@suffix`.
- It answers with an envelope (`jobs`, `distinct_entities`, `friendly_entities`,
  `customised_entities`, `warnings`, `errors`, `status`) and an HTTP-like code:
  200, 202, 400 or 418.
- Each job pairs a matching entity with the job's query. Every `%ENTITY%` in the
  query is replaced by the entity's value.

The two files are one model, parameterised by `JobValidator.Variant`. They
differ in one way: `make_job.py` never imports `logging`. In that copy, each
structural check of the validator (item-type, entity-type, query) raises a
`NameError` instead of returning its message. The handler turns that into 418
instead of 400.

**The Log Analytics share-link builder.** This is `make_share_url` in
`make_la_share_url.py` and its copy `make_la_share_url/make_la_share_url.py`.
- It reports each empty field in a fixed order, joined by `;`, with exit code 1.
- Otherwise it optionally prepends a `set query_now = datetime(<now>);` line.
- It then UTF-8 encodes, gzips and base64-encodes the query (RFC 4648, section 4).
- It escapes `/`, `+` and `=` as `%2F`, `%2B` and `%3D`.
- It fills the portal URL template.
- The `timespan` suffix is concatenated and the result thrown away. The returned
  URL therefore does not depend on `timespan`, and the model keeps that behaviour.

Modelling choices:
- **JSON values** are the datatype `PyJson.Json`. Python truthiness, `dict.get`
  defaults, the `in` operator and list membership are modelled. In list
  membership, `1 == True` and `1.0 == True`.
- **Exceptions** raised inside the `try` block are explicit outcomes:
  `JobValidator.Checked.Raised`, and `None` from `Entities.ReturnEntities`. Both
  lead to the 418 path.
- **Code after the `try` block** has no handler. The inputs it needs are the
  precondition `JobPipeline.AfterScreenInputs`.
- **Imperative code is methods.** Each source function that works by loops and
  step-by-step updates is a method proved equal to a specification function:
  `ValidateJobIsJob` with its severity_change loop `CheckSeverityChange`,
  `GenerateCustomEntitiesList`, `MainMakeJob` with its try block
  `ScreenPayload` and its job loop `AttachQueries`, and `MakeShareUrl`. The
  lemmas state the properties of those functions.

## Model

| member | source | states |
|---|---|---|
| JobValidator.ValidateJobIsJob | make_job.py:3-58 | the loop-based validator returns exactly `JobVerdict`: the structural checks, then the severity_change messages in entry order, then the commentOnIncidents check, or raises; the variant selects this copy (structural failures raise) or the identical one at SentinelSOARJobCreator.py:31-86 (they return their message) |
| JobValidator.CheckSeverityChange | make_job.py:28-44 | the loop over severity_change returns exactly the messages of its entries in order, or raises; a dict raises exactly when one of its keys makes a check raise |
| JobValidator.EntriesMessagesRaisedStays | make_job.py:32-44 | once an entry raises, processing any longer prefix of the entry list raises too |
| JobValidatorProperties.StructuralChecksShortCircuit | SentinelSOARJobCreator.py:44-52 | item-type, entity-type and query are checked in that order; the first failure gives its single message (or raises without `logging`) whatever the rest holds |
| JobValidatorProperties.CopiesDifferOnlyOnStructuralFailure | make_job.py:16-24 | the two copies give different verdicts exactly when a structural check fails; then make_job.py raises and the other copy returns `(False, message)` |
| JobValidatorProperties.EntriesMessagesAppend | make_job.py:32-44 | the messages of a concatenation of entry lists are the concatenation of their messages, so messages stay in entry order |
| JobValidatorProperties.EntryMessagesAreRuleMessages | make_job.py:35-44 | every message one entry adds is one of the four entry rule messages |
| JobValidatorProperties.EntriesMessagesAreRuleMessages | make_job.py:32-44 | every message of the entry loop is a rule message |
| JobValidatorProperties.RuleMessagesAreRuleMessages | make_job.py:28-51 | every message after the structural checks is a rule message or the commentOnIncidents message |
| JobValidatorProperties.VerdictOkIffNoErrors | make_job.py:55-58 | a verdict is positive exactly when its error string is empty |
| JobValidatorProperties.WellFormedEntryAddsNothing | make_job.py:35-44 | an entry with an allowed severity, a non-negative integer count and a non-empty entity_contains adds no message |
| JobValidatorProperties.NegativeCountReported | make_job.py:35-36 | a negative integer results_count_mt makes "results_count_mt is not a number" the entry's first message |
| JobValidatorProperties.SeverityMessageTwice | make_job.py:37-44 | an entry with both entity_contains and a results_count_mt that compares with -1 without raising (an int, float or bool), and no allowed severity, gets the severity message twice |
| JobValidatorProperties.CommentOnIncidentsChecked | make_job.py:48-51 | an absent or falsy commentOnIncidents adds nothing; a truthy one is accepted exactly when it equals True (True, 1 or 1.0); a non-empty string is rejected |
| JobValidatorProperties.WellFormedEntriesAddNothing | make_job.py:32-44 | a list of well-formed entries adds no message |
| JobValidatorProperties.WellFormedJobAccepted | make_job.py:16-56 | every well-formed job is accepted with an empty error string by both copies |
| JobValidatorProperties.DictShapedSeverityChangeRaises | SentinelSOARJobCreator.py:9-14 | the job shape shown in the module docstring, with severity_change as a dict, makes validation raise |
| JobValidatorProperties.KeyAsEntryRaises | make_job.py:35 | a string entry equal to "results_count_mt" passes the `in` test and then raises when indexed by a string |
| JobValidatorProperties.SampleJobAccepted | make_job_test.py:9-21 | the sample enrichment job of the tests is accepted with no errors by both copies |
| Entities.ReturnEntities | make_job.py:61-71 | the related-entities value of the incident; `[]` when the object, properties or relatedEntities segment is missing; no result (the AttributeError) exactly when the incident or a present segment is not a dict; the same function is SentinelSOARJobCreator.py:89-99 |
| Entities.ManipulateEntityValues | make_job.py:73-89 | a value exactly for an Account whose accountName and upnSuffix are both non-empty, and then it is the account name, one `@`, and the suffix; the same function is SentinelSOARJobCreator.py:101-117 |
| Entities.EntityValue | make_job.py:81-115 | an entity's value is `accountName@upnSuffix` exactly for an Account with both properties non-empty, otherwise its friendlyName or "" |
| Entities.GenerateCustomEntitiesList | make_job.py:92-119 | one normalised entry per entity, in order, carrying that entity's kind and value |
| Entities.OfKindMembers | make_job.py:189 | the entity selection keeps exactly the normalised entities whose lower-cased kind is the job's entity type |
| Entities.OfKindAppend | make_job.py:189 | the selection distributes over concatenation, so it keeps the input order |
| Entities.OfKindNonEmpty | make_job.py:181-189 | if some entity has the kind, the selection is non-empty |
| JobPipeline.MainMakeJob | make_job.py:122-203 | the step-by-step handler returns exactly the envelope and code of `MakeJob`; the same handler is `main_funct` at SentinelSOARJobCreator.py:150-231 |
| JobPipeline.ScreenPayload | make_job.py:146-165 | the try block returns exactly the envelope and early-return code of `Screen`: 418 on a raise, 400 on rule errors, 202 on no entities, none otherwise |
| JobPipeline.AttachQueries | make_job.py:192-194 | one job per selected entity, in order, each carrying the query with `%ENTITY%` replaced by that entity's value |
| JobPipelineProperties.ResultCodes | make_job.py:142-203 | every run ends with 200, 202, 400 or 418, and 200 exactly when at least one job is produced |
| JobPipelineProperties.ExceptionGives418 | make_job.py:146-165 | a raise during extraction or validation gives 418, the schema error and no jobs |
| JobPipelineProperties.StructuralFailureByCopy | SentinelSOARJobCreator.py:174-193 | a structurally invalid job gives 418 and the schema error in make_job.py, and 400 with the validator's message in the other copy |
| JobPipelineProperties.CopiesAgreeOtherwise | SentinelSOARJobCreator.py:150-231 | apart from structural failures the two copies give identical responses |
| JobPipelineProperties.NoEntitiesWarning | make_job.py:147-151 | no related entities and a valid job give 202 with the "no entities in incident" warning and every list empty |
| JobPipelineProperties.InvalidJobGives400 | make_job.py:154-158 | a job with rule errors gives 400, the validator's string and no jobs; the status also carries the warning flag when there are no entities |
| JobPipelineProperties.EntityTypeAbsent | make_job.py:170-183 | an entity type absent from the incident gives 202, no jobs and the status "0:job entity type not in sentinel incident", with the entity lists filled in |
| JobPipelineProperties.SuccessfulRun | make_job.py:188-203 | success gives 200 and "0:ok"; the jobs are, in order, exactly the normalised entities of the job's type, never none, each with its placeholder-substituted query; customised_entities is left unchanged |
| JobPipelineProperties.SuccessResponse | make_job.py:169-203 | a run that reaches the job list answers 200 with the entity lists, the materialised jobs and the status "0:ok", and no warnings or errors |
| JobPipelineProperties.QueryWithoutPlaceholder | make_job.py:193-194 | a query without `%ENTITY%` is run unchanged for every matching entity |
| JobPipelineProperties.EntityLists | make_job.py:168-171 | in every response that gets past the try block, distinct_entities holds exactly the incident's lower-cased kinds, and friendly_entities is `friendlyName:kind` for each entity, one per entity, in incident order |
| Text.Lower | make_job.py:170 | lower-casing keeps the length, leaves no upper-case letter, keeps every other character in place and turns each upper-case letter into its lower-case partner |
| Text.LowerIdempotent | make_job.py:170 | lower-casing an already lower-cased kind changes nothing |
| Text.JoinEmptyIff | make_la_share_url.py:26-27 | joining non-empty messages gives "" exactly when there are none |
| Text.JoinContainsPart | make_la_share_url.py:27 | every joined message occurs in the joined string |
| Text.ReplaceAbsent | make_job.py:194 | replacing a pattern that does not occur leaves the text unchanged |
| Text.ReplaceCharAppend | make_la_share_url.py:43-45 | replacing a single character distributes over concatenation |
| Text.ReplaceCharSingle | make_la_share_url.py:43-45 | replacing a single character in a one-character text substitutes it or keeps it |
| Bytes.Utf8Char | make_la_share_url.py:35 | a character encodes to one to four bytes, and to itself exactly when it is ASCII |
| Bytes.Utf8Encode | make_la_share_url.py:35 | the encoding is between one and four bytes per character, and ASCII text maps byte for byte |
| Base64.CharToIndex | make_la_share_url.py:39-40 | every alphabet character is the image of its index |
| Base64.IndexToCharInverse | make_la_share_url.py:39-40 | each of the 64 indices maps to an alphabet character that maps back to it |
| Base64.Encode | make_la_share_url.py:39-40 | the output has 4·⌈n/3⌉ characters, each from the alphabet, with `=` only in the last two positions |
| Base64.FullQuantumRoundTrip | make_la_share_url.py:39 | a full three-byte quantum decodes back to its bytes |
| Base64.TwoQuantumRoundTrip | make_la_share_url.py:39 | a final two-byte quantum with one `=` decodes back to its bytes |
| Base64.OneQuantumRoundTrip | make_la_share_url.py:39 | a final one-byte quantum with two `=` decodes back to its byte |
| Base64.DecodeEncodeShort | make_la_share_url.py:39 | one or two bytes survive encoding and decoding |
| Base64.DecodeEncode | make_la_share_url.py:39-40 | decoding the encoding of any byte string gives it back |
| ShareLink.SequentialReplaceIsEscape | make_la_share_url.py:43-45 | the three successive `replace` calls equal the character-wise percent escape |
| ShareLink.ReplaceNoTarget | make_la_share_url.py:43-45 | replacing a character that does not occur changes nothing |
| ShareLink.MakeShareUrl | make_la_share_url.py:11-58 | the step-by-step builder returns exactly `ShareLinkOutcome`, whatever the timespan; make_la_share_url/make_la_share_url.py:11-58 is an identical copy |
| ShareLinkProperties.ExitCodeIffEmptyField | make_la_share_url.py:13-27 | exit code 1 exactly when some field is empty, with the messages joined by ";"; otherwise exit code 0 |
| ShareLinkProperties.ValidationMessagesInOrder | make_la_share_url.py:13-24 | each message is present exactly when its field is empty, there are at most four, and with every field empty they come in the order query, subscription, resource group, workspace |
| ShareLinkProperties.EmptySubscriptionReported | make_la_share_url/make_la_share_url.py:17-27 | an empty subscription id gives exit code 1 and a message containing "Subscription ID empty" |
| ShareLinkProperties.AllFieldsGiveUrl | make_la_share_url.py:48-58 | with all fields given, exit code 0 and a URL that starts with the portal prefix, contains the resource path and ends with `q/` and the encoded query |
| ShareLinkProperties.OutcomeWhenValid | make_la_share_url.py:26-58 | with no field empty, the result is exit code 0 and the template filled with the fields and the encoded query |
| ShareLinkProperties.UrlShape | make_la_share_url.py:48-53 | the template starts with the portal prefix, contains the resource path and ends with the q segment |
| ShareLinkProperties.EscapedHasNoReserved | make_la_share_url.py:43-45 | the escaped text has no `/`, `+` or `=` |
| ShareLinkProperties.UnescapeEscapeChar | make_la_share_url.py:43-45 | undoing the escape of one character gives it back |
| ShareLinkProperties.UnescapeEscape | make_la_share_url.py:43-45 | undoing the escape gives back any text free of `%` |
| ShareLinkProperties.Base64HasNoPercent | make_la_share_url.py:39-40 | base64 output contains no `%`, so the escape is reversible on it |
| ShareLinkProperties.EncodedQueryRoundTrip | make_la_share_url.py:35-45 | unescaping, base64-decoding and decompressing the q segment gives the UTF-8 bytes of the query text |
| ShareLinkProperties.QueryNowOnlyPrepends | make_la_share_url.py:30-32 | set_query_now only prepends the `set query_now = datetime(now);` line; the query stays the suffix and the text gets longer |
| ShareLinkProperties.SampleInputs | make_la_share_url_test.py:13-30 | the test's sample fields give exit code 0 and a URL containing the resource path of subscription some_guid, group my_resources and workspace my_sentinel01 |
| ShareLinkProperties.TimespanIgnored | make_la_share_url.py:55-58 | two runs that differ only in timespan return the same exit code and URL |

## Left out

- The HTTP triggers are not modelled: `test_function` in SentinelSOARJobCreator.py, `make_url` in make_la_share_url/make_la_share_url.py, and function_app.py. They are request and response plumbing around the modelled functions.
- Logging calls are not modelled; they have no effect on results. The one thing that matters, whether `logging` is imported at all, is modelled by `Variant`.
- gzip is a function parameter. The model proves the URL round trip for any decompressor that inverts the compressor.
- `datetime.now().isoformat()` is the string parameter `now`.
- The unused configuration flags are not modelled: `REWRITE_QUERIES` and `POST_QUERY_RSLT_COMMENT`.
- The unused `full_netbios_name` parameter is not modelled. `match_upn` is fixed at its default, True, because every call site uses it.
- Text.Lower: lower-cases ASCII letters only; Python's full Unicode case mapping is not modelled.
- JSON objects are maps, so dict key order is lost. Only iteration over a dict-shaped severity_change sees the order, and its outcome does not depend on it.
- JobPipeline.DistinctKinds: distinct_entities is a set. Python's `list(set(...))` order depends on string hashing, so the model states membership only.
- JobPipeline.MakeJob, JobPipeline.MainMakeJob: crashes in the code after the `try` block are excluded by the precondition `AfterScreenInputs`, not modelled as a raise. Those crashes are:
  - a truthy `relatedEntities` that is not a list (a dict, string or number), whose iteration at make_job.py:170 raises TypeError;
  - an entity that is not a dict;
  - an entity without `kind`, or with a `kind` that is not a string (`.lower()` at make_job.py:170 raises);
  - an entity whose `properties` is missing or not a dict, or lacks `friendlyName` (the subscript at make_job.py:171 raises);
  - a non-string entity-type;
  - a non-string query for a matching type.
- Entities.ManipulateEntityValues, Entities.EntityValue, Entities.GenerateCustomEntitiesList, JobPipeline.MainMakeJob, JobPipeline.MakeJob: the model is deliberately restricted to entities whose friendlyName, accountName and upnSuffix are strings when present (`Entities.IsEntity`, required through `AfterScreenInputs`). The source accepts other JSON values there: the f-strings at make_job.py:87 and :171 format them with Python's `str()` (accountName 42 gives "42@corp.com"), and a non-string friendlyName only raises at make_job.py:194 when its entity is selected. Python's `str()` of arbitrary JSON values is not modelled, so those inputs are outside the model.
- JSON floats are modelled as exact reals. The Python code only compares them (`> -1`, truthiness, equality with True/False), so only NaN and infinities are lost.
- ShareLinkProperties.QueryNowOnlyPrepends: the test that the URL with query_now is longer is stated for the text fed to the compressor, not the URL. The URL's length depends on the compressor's output.
- ShareLinkProperties.SampleInputs: the expected resource string is stated as `ResourcePath` of the sample fields, not spelled out as one literal.
