/** What `make_share_url` promises: its error reporting, its escape and the URL it assembles. */
module ShareLinkProperties {
  import opened Bytes
  import Base64
  import Text
  import opened ShareLink

  const SampleQuery := "SigninLogs | take 1"
  const SampleSubscription := "some_guid"
  const SampleResourceGroup := "my_resources"
  const SampleWorkspace := "my_sentinel01"

  /** Exit code 1 exactly when some field is empty, with the messages joined by ";"; otherwise exit code 0. */
  lemma ExitCodeIffEmptyField(query: string, subscriptionId: string, resourceGroup: string, workspaceName: string,
                              setQueryNow: bool, now: string, gzip: seq<uint8> -> seq<uint8>)
    ensures var (code, text) := ShareLinkOutcome(query, subscriptionId, resourceGroup, workspaceName, setQueryNow, now, gzip);
      && (code == 0 || code == 1)
      && (code == 1 <==> query == "" || subscriptionId == "" || resourceGroup == "" || workspaceName == "")
      && (code == 1 ==> text == Text.Join(";", ValidationErrors(query, subscriptionId, resourceGroup, workspaceName)))
  {
    var errors := ValidationErrors(query, subscriptionId, resourceGroup, workspaceName);
    if query == "" {
      assert errors[0] == MsgQueryMissing;
    } else if subscriptionId == "" {
      assert errors[0] == MsgSubscriptionEmpty;
    } else if resourceGroup == "" {
      assert errors[0] == MsgResourceGroupEmpty;
    } else if workspaceName == "" {
      assert errors[0] == MsgWorkspaceEmpty;
    }
  }

  /**
   * Each empty field contributes its own message, so every message names
   * exactly one missing field; with every field empty, the four messages
   * come in the order the fields are checked.
   */
  lemma ValidationMessagesInOrder(query: string, subscriptionId: string, resourceGroup: string, workspaceName: string)
    ensures var errors := ValidationErrors(query, subscriptionId, resourceGroup, workspaceName);
      && (MsgQueryMissing in errors <==> query == "")
      && (MsgSubscriptionEmpty in errors <==> subscriptionId == "")
      && (MsgResourceGroupEmpty in errors <==> resourceGroup == "")
      && (MsgWorkspaceEmpty in errors <==> workspaceName == "")
      && |errors| <= 4
      && (query == "" && subscriptionId == "" && resourceGroup == "" && workspaceName == "" ==>
            errors == [MsgQueryMissing, MsgSubscriptionEmpty, MsgResourceGroupEmpty, MsgWorkspaceEmpty])
  {
  }

  /** An empty subscription id yields exit code 1 and a message mentioning it. */
  lemma EmptySubscriptionReported(query: string, resourceGroup: string, workspaceName: string,
                                  setQueryNow: bool, now: string, gzip: seq<uint8> -> seq<uint8>)
    ensures var (code, text) := ShareLinkOutcome(query, "", resourceGroup, workspaceName, setQueryNow, now, gzip);
      code == 1 && Text.Contains(text, MsgSubscriptionEmpty)
  {
    var errors := ValidationErrors(query, "", resourceGroup, workspaceName);
    var k := if query == "" then 1 else 0;
    assert errors[k] == MsgSubscriptionEmpty;
    Text.JoinContainsPart(";", errors, k);
  }

  /** With every field given, the result is the template filled in, ending in the q segment. */
  lemma AllFieldsGiveUrl(query: string, subscriptionId: string, resourceGroup: string, workspaceName: string,
                         setQueryNow: bool, now: string, gzip: seq<uint8> -> seq<uint8>)
    requires query != "" && subscriptionId != "" && resourceGroup != "" && workspaceName != ""
    ensures var outcome := ShareLinkOutcome(query, subscriptionId, resourceGroup, workspaceName, setQueryNow, now, gzip);
      var url := outcome.1;
      var encoded := EncodedQuery(QueryText(query, setQueryNow, now), gzip);
      && outcome.0 == 0
      && url[..|PortalPrefix|] == PortalPrefix
      && Text.Contains(url, ResourcePath(subscriptionId, resourceGroup, workspaceName))
      && |url| >= |encoded| + |QuerySegment|
      && url[|url| - |encoded| - |QuerySegment|..] == QuerySegment + encoded
  {
    var encoded := EncodedQuery(QueryText(query, setQueryNow, now), gzip);
    OutcomeWhenValid(query, subscriptionId, resourceGroup, workspaceName, setQueryNow, now, gzip);
    UrlShape(subscriptionId, resourceGroup, workspaceName, encoded);
  }

  /** With no field empty, the outcome is exit code 0 and the filled-in template. */
  lemma OutcomeWhenValid(query: string, subscriptionId: string, resourceGroup: string, workspaceName: string,
                         setQueryNow: bool, now: string, gzip: seq<uint8> -> seq<uint8>)
    requires query != "" && subscriptionId != "" && resourceGroup != "" && workspaceName != ""
    ensures ShareLinkOutcome(query, subscriptionId, resourceGroup, workspaceName, setQueryNow, now, gzip)
            == (0, ShareUrl(subscriptionId, resourceGroup, workspaceName, EncodedQuery(QueryText(query, setQueryNow, now), gzip)))
  {
    NoErrorsWhenAllGiven(query, subscriptionId, resourceGroup, workspaceName);
  }

  /** No field empty, no message. */
  lemma NoErrorsWhenAllGiven(query: string, subscriptionId: string, resourceGroup: string, workspaceName: string)
    requires query != "" && subscriptionId != "" && resourceGroup != "" && workspaceName != ""
    ensures ValidationErrors(query, subscriptionId, resourceGroup, workspaceName) == []
  {
  }

  /** The template starts with the portal prefix, holds the resource path and ends with the q segment. */
  lemma UrlShape(subscriptionId: string, resourceGroup: string, workspaceName: string, encoded: string)
    ensures var url := ShareUrl(subscriptionId, resourceGroup, workspaceName, encoded);
      && url[..|PortalPrefix|] == PortalPrefix
      && Text.Contains(url, ResourcePath(subscriptionId, resourceGroup, workspaceName))
      && |url| >= |encoded| + |QuerySegment|
      && url[|url| - |encoded| - |QuerySegment|..] == QuerySegment + encoded
  {
    Pieces(PortalPrefix, ResourcePath(subscriptionId, resourceGroup, workspaceName), SourcePath, QuerySegment, encoded);
  }

  /** Where the pieces of a five-part concatenation sit. */
  lemma Pieces(a: string, b: string, c: string, d: string, e: string)
    ensures (a + b + c + d + e)[..|a|] == a
    ensures Text.OccursAt(a + b + c + d + e, b, |a|)
    ensures Text.Contains(a + b + c + d + e, b)
    ensures (a + b + c + d + e)[|a + b + c + d + e| - |e| - |d|..] == d + e
  {
    var s := a + b + c + d + e;
    assert s == a + (b + (c + d + e));
    assert s == (a + b + c) + (d + e);
    assert Text.OccursAt(s, b, |a|);
  }

  /** The three escaped characters never survive the escape. */
  lemma {:induction false} EscapedHasNoReserved(s: string)
    ensures '/' !in PercentEscape(s) && '+' !in PercentEscape(s) && '=' !in PercentEscape(s)
    decreases |s|
  {
    if s != [] {
      EscapedHasNoReserved(s[1..]);
      assert PercentEscape(s) == EscapeChar(s[0]) + PercentEscape(s[1..]);
    }
  }

  /** Undoing the escape of one character. */
  lemma UnescapeEscapeChar(c: char, t: string)
    requires c != '%'
    ensures PercentUnescape(EscapeChar(c) + t) == [c] + PercentUnescape(t)
  {
    if c == '/' {
      UnescapeTriple("%2F", t);
    } else if c == '+' {
      UnescapeTriple("%2B", t);
    } else if c == '=' {
      UnescapeTriple("%3D", t);
    } else {
      UnescapePlain(c, t);
    }
  }

  /** An escape sequence at the front decodes to its character. */
  lemma UnescapeTriple(e: string, t: string)
    requires e == "%2F" || e == "%2B" || e == "%3D"
    ensures PercentUnescape(e + t) == (if e == "%2F" then "/" else if e == "%2B" then "+" else "=") + PercentUnescape(t)
  {
    var s := e + t;
    assert s[..3] == e;
    assert s[3..] == t;
  }

  /** Any other character at the front is kept. */
  lemma UnescapePlain(c: char, t: string)
    requires c != '%'
    ensures PercentUnescape([c] + t) == [c] + PercentUnescape(t)
  {
    var s := [c] + t;
    assert s[0] == c;
    assert s[1..] == t;
    if |s| >= 3 {
      assert s[..3][0] == c;
    }
  }

  /** Unescaping the escaped text gives back any text free of `%`, such as base64 output. */
  lemma {:induction false} UnescapeEscape(s: string)
    requires '%' !in s
    ensures PercentUnescape(PercentEscape(s)) == s
    decreases |s|
  {
    if s != [] {
      UnescapeEscapeChar(s[0], PercentEscape(s[1..]));
      UnescapeEscape(s[1..]);
      assert s == [s[0]] + s[1..];
    }
  }

  /** Base64 output has no `%`, so the escape is reversible on it. */
  lemma Base64HasNoPercent(b: seq<uint8>)
    ensures '%' !in Base64.Encode(b)
  {
    var r := Base64.Encode(b);
    forall i | 0 <= i < |r|
      ensures r[i] != '%'
    {
      assert Base64.EncodedCharAt(r, i);
    }
  }

  /**
   * The q segment decodes back to the query text: unescape, base64-decode,
   * and a decompressor inverse to the compressor give the UTF-8 bytes of the text.
   */
  lemma EncodedQueryRoundTrip(text: string, gzip: seq<uint8> -> seq<uint8>, gunzip: seq<uint8> -> seq<uint8>)
    requires forall b :: gunzip(gzip(b)) == b
    ensures var decoded := Base64.Decode(PercentUnescape(EncodedQuery(text, gzip)));
      decoded.Some? && gunzip(decoded.value) == Utf8Encode(text)
  {
    var compressed := gzip(Utf8Encode(text));
    Base64HasNoPercent(compressed);
    UnescapeEscape(Base64.Encode(compressed));
    Base64.DecodeEncode(compressed);
  }

  /** `set_query_now` only prepends the `set query_now` line; the query is kept as the suffix. */
  lemma QueryNowOnlyPrepends(query: string, now: string)
    ensures var text := QueryText(query, true, now);
      && |text| > |QueryText(query, false, now)|
      && text[|text| - |query|..] == query
      && text[..|text| - |query|] == "set query_now = datetime(" + now + ");\n"
  {
  }

  /** The sample inputs exit with 0 and carry the expected resource path. */
  lemma SampleInputs(gzip: seq<uint8> -> seq<uint8>)
    ensures var (code, url) := ShareLinkOutcome(SampleQuery, SampleSubscription, SampleResourceGroup, SampleWorkspace, false, "", gzip);
      && code == 0
      && Text.Contains(url, ResourcePath(SampleSubscription, SampleResourceGroup, SampleWorkspace))
  {
    AllFieldsGiveUrl(SampleQuery, SampleSubscription, SampleResourceGroup, SampleWorkspace, false, "", gzip);
  }

  /** The returned pair does not depend on `timespan`. */
  method TimespanIgnored(query: string, subscriptionId: string, resourceGroup: string, workspaceName: string,
                         timespan1: string, timespan2: string, setQueryNow: bool, now: string, gzip: seq<uint8> -> seq<uint8>)
    returns (code1: int, url1: string, code2: int, url2: string)
    ensures code1 == code2 && url1 == url2
  {
    code1, url1 := MakeShareUrl(query, subscriptionId, resourceGroup, workspaceName, timespan1, setQueryNow, now, gzip);
    code2, url2 := MakeShareUrl(query, subscriptionId, resourceGroup, workspaceName, timespan2, setQueryNow, now, gzip);
  }
}
