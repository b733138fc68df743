/**
 * `make_share_url` (make_la_share_url.py, and its copy
 * make_la_share_url/make_la_share_url.py): validate four fields, optionally
 * prepend a `set query_now` line, gzip, base64-encode, escape `/`, `+` and
 * `=`, and interpolate into the Log Analytics share-link template.
 * The compressor and the clock are parameters.
 */
module ShareLink {
  import opened Wrappers
  import opened Bytes
  import Base64
  import Text

  const MsgQueryMissing := "Query must be supplied"
  const MsgSubscriptionEmpty := "Subscription ID empty"
  const MsgResourceGroupEmpty := "Resource group empty"
  const MsgWorkspaceEmpty := "Workspace name empty"

  const PortalPrefix := "https://portal.azure.com/#view/Microsoft_OperationsManagementSuite_Workspace/Logs.ReactView/resourceId/"
  const SourcePath := "/source/LogsBlade.AnalyticsShareLinkToQuery/"
  const QuerySegment := "q/"

  /** The messages for the empty required fields, in the order they are checked. */
  function ValidationErrors(query: string, subscriptionId: string, resourceGroup: string, workspaceName: string): seq<string>
  {
    (if query == "" then [MsgQueryMissing] else [])
    + (if subscriptionId == "" then [MsgSubscriptionEmpty] else [])
    + (if resourceGroup == "" then [MsgResourceGroupEmpty] else [])
    + (if workspaceName == "" then [MsgWorkspaceEmpty] else [])
  }

  /** The text handed to the compressor; `now` is the ISO-8601 invocation time. */
  function QueryText(query: string, setQueryNow: bool, now: string): string
  {
    if setQueryNow then "set query_now = datetime(" + now + ");\n" + query else query
  }

  /** The percent escape of one character of base64 text. */
  function EscapeChar(c: char): string
  {
    if c == '/' then "%2F" else if c == '+' then "%2B" else if c == '=' then "%3D" else [c]
  }

  /** `/`, `+` and `=` percent-escaped, every other character kept. */
  function PercentEscape(s: string): string
  {
    if s == [] then [] else EscapeChar(s[0]) + PercentEscape(s[1..])
  }

  /** The inverse escape: `%2F`, `%2B` and `%3D` decoded, every other character kept. */
  function PercentUnescape(s: string): string
  {
    if |s| >= 3 && s[..3] == "%2F" then "/" + PercentUnescape(s[3..])
    else if |s| >= 3 && s[..3] == "%2B" then "+" + PercentUnescape(s[3..])
    else if |s| >= 3 && s[..3] == "%3D" then "=" + PercentUnescape(s[3..])
    else if s == [] then []
    else [s[0]] + PercentUnescape(s[1..])
  }

  /** The q segment for a query text. */
  function EncodedQuery(text: string, gzip: seq<uint8> -> seq<uint8>): string
  {
    PercentEscape(Base64.Encode(gzip(Utf8Encode(text))))
  }

  /** The escaped Azure resource id of the workspace. */
  function ResourcePath(subscriptionId: string, resourceGroup: string, workspaceName: string): string
  {
    "%2Fsubscriptions%2F" + subscriptionId + "%2FresourceGroups%2F" + resourceGroup
    + "%2Fproviders%2FMicrosoft.OperationalInsights%2Fworkspaces%2F" + workspaceName
  }

  /** The share-link template. */
  function ShareUrl(subscriptionId: string, resourceGroup: string, workspaceName: string, encoded: string): string
  {
    PortalPrefix + ResourcePath(subscriptionId, resourceGroup, workspaceName) + SourcePath + QuerySegment + encoded
  }

  /** The pair `(exit_code, text)` that `make_share_url` returns. */
  function ShareLinkOutcome(query: string, subscriptionId: string, resourceGroup: string, workspaceName: string,
                            setQueryNow: bool, now: string, gzip: seq<uint8> -> seq<uint8>): (int, string)
  {
    var errors := ValidationErrors(query, subscriptionId, resourceGroup, workspaceName);
    if errors != [] then (1, Text.Join(";", errors))
    else (0, ShareUrl(subscriptionId, resourceGroup, workspaceName, EncodedQuery(QueryText(query, setQueryNow, now), gzip)))
  }

  /** Three successive `replace` calls give the character-wise escape. */
  lemma {:induction false} SequentialReplaceIsEscape(s: string)
    ensures Text.ReplaceAll(Text.ReplaceAll(Text.ReplaceAll(s, "/", "%2F"), "+", "%2B"), "=", "%3D") == PercentEscape(s)
    decreases |s|
  {
    if s != [] {
      var x, rest := s[0], s[1..];
      assert s == [x] + rest;
      var r1 := Text.ReplaceAll([x], "/", "%2F");
      Text.ReplaceCharAppend([x], rest, '/', "%2F");
      Text.ReplaceCharSingle(x, '/', "%2F");
      var r2 := Text.ReplaceAll(r1, "+", "%2B");
      Text.ReplaceCharAppend(r1, Text.ReplaceAll(rest, "/", "%2F"), '+', "%2B");
      var r3 := Text.ReplaceAll(r2, "=", "%3D");
      Text.ReplaceCharAppend(r2, Text.ReplaceAll(Text.ReplaceAll(rest, "/", "%2F"), "+", "%2B"), '=', "%3D");
      if x == '/' {
        ReplaceNoTarget("%2F", '+', "%2B");
        ReplaceNoTarget("%2F", '=', "%3D");
      } else if x == '+' {
        Text.ReplaceCharSingle(x, '+', "%2B");
        ReplaceNoTarget("%2B", '=', "%3D");
      } else if x == '=' {
        Text.ReplaceCharSingle(x, '+', "%2B");
        Text.ReplaceCharSingle(x, '=', "%3D");
      } else {
        Text.ReplaceCharSingle(x, '+', "%2B");
        Text.ReplaceCharSingle(x, '=', "%3D");
      }
      SequentialReplaceIsEscape(rest);
    }
  }

  /** Replacing a character that does not occur changes nothing. */
  lemma {:induction false} ReplaceNoTarget(s: string, c: char, rep: string)
    requires c !in s
    ensures Text.ReplaceAll(s, [c], rep) == s
    decreases |s|
  {
    if s != [] {
      assert s == [s[0]] + s[1..];
      Text.ReplaceCharAppend([s[0]], s[1..], c, rep);
      Text.ReplaceCharSingle(s[0], c, rep);
      ReplaceNoTarget(s[1..], c, rep);
    }
  }

  /** `make_share_url`: collect the messages for empty fields, else build the URL step by step. */
  method MakeShareUrl(query: string, subscriptionId: string, resourceGroup: string, workspaceName: string,
                      timespan: string, setQueryNow: bool, now: string, gzip: seq<uint8> -> seq<uint8>)
    returns (exitCode: int, result: string)
    ensures (exitCode, result) == ShareLinkOutcome(query, subscriptionId, resourceGroup, workspaceName, setQueryNow, now, gzip)
  {
    var errors: seq<string> := [];
    if query == "" {
      errors := errors + [MsgQueryMissing];
    }
    if subscriptionId == "" {
      errors := errors + [MsgSubscriptionEmpty];
    }
    if resourceGroup == "" {
      errors := errors + [MsgResourceGroupEmpty];
    }
    if workspaceName == "" {
      errors := errors + [MsgWorkspaceEmpty];
    }
    assert errors == ValidationErrors(query, subscriptionId, resourceGroup, workspaceName);
    if errors != [] {
      return 1, Text.Join(";", errors);
    }

    var text := query;
    if setQueryNow {
      text := "set query_now = datetime(" + now + ");\n" + text;
    }
    var compressed := gzip(Utf8Encode(text));
    var encoded := Base64.Encode(compressed);
    encoded := Text.ReplaceAll(encoded, "/", "%2F");
    encoded := Text.ReplaceAll(encoded, "+", "%2B");
    encoded := Text.ReplaceAll(encoded, "=", "%3D");
    SequentialReplaceIsEscape(Base64.Encode(compressed));

    var baseUrl := PortalPrefix + ResourcePath(subscriptionId, resourceGroup, workspaceName) + SourcePath + QuerySegment + encoded;
    if timespan != "" {
      // The Python code computes this suffixed URL and discards it.
      var discarded := baseUrl + "/timespan/" + timespan;
    }
    return 0, baseUrl;
  }
}
