/** The decision logic of the three endpoints of app.py: GET /anomalies,
    POST /scan-and-notify and POST /run-action, as functions and methods from their
    inputs to the JSON body they answer with. Routing, the log file, the environment
    and both network services are parameters. */
module Endpoints {
  import opened Text
  import opened Values
  import opened Frames
  import opened Rca

  // ---------------------------------------------------------------------------
  // GET /anomalies

  /** One entry of "items": the anomalous row, its narrative and its commands. */
  datatype Item = Item(row: Record, rca: string, commands: map<string, string>)

  /** The body {"count": ..., "items": [...]}. */
  datatype AnomaliesResponse = AnomaliesResponse(count: nat, items: seq<Item>)

  /** The item built for the k-th anomalous row. `contextOf` is json.dumps of the row,
      `replies(k)` the outcome of the k-th model call (used only when the model is
      enabled). */
  function MakeItem(row: Record, k: nat, llmEnabled: bool, replies: nat -> Reply,
                    contextOf: Record -> string): Item
  {
    Item(row, RcaText(contextOf(row), llmEnabled, replies(k)), DebugCommands(row))
  }

  /** The items of the response: one per anomalous row, in the same order. */
  function Items(rows: seq<Record>, llmEnabled: bool, replies: nat -> Reply,
                 contextOf: Record -> string): (items: seq<Item>)
    ensures |items| == |rows|
    ensures forall k :: 0 <= k < |rows| ==> items[k] == MakeItem(rows[k], k, llmEnabled, replies, contextOf)
  {
    seq(|rows|, k requires 0 <= k < |rows| => MakeItem(rows[k], k, llmEnabled, replies, contextOf))
  }

  /** What GET /anomalies answers for the loaded records, or the exception it dies
      with. */
  function AnomaliesOf(logs: seq<Record>, contamination: real, flagger: Flagger,
                       llmEnabled: bool, replies: nat -> Reply,
                       contextOf: Record -> string): (r: Result<AnomaliesResponse, Error>)
    ensures |logs| == 0 ==> r == Ok(AnomaliesResponse(0, []))
    ensures r.Ok? ==> r.value.count == |r.value.items| <= |logs|
    ensures r.Err? ==> r.error == FitFailed
  {
    var cols := ColumnsOf(logs);
    if |logs| == 0 || |cols| == 0 then Ok(AnomaliesResponse(0, []))
    else
      match Detect(logs, cols, NumericColumns(logs, cols), contamination, flagger)
      case Err(e) => Err(e)
      case Ok(rows) =>
        var items := Items(rows, llmEnabled, replies, contextOf);
        Ok(AnomaliesResponse(|items|, items))
  }

  /** The /anomalies handler: assemble, detect, then one narrative and one command set
      per anomalous row. */
  method Anomalies(logs: seq<Record>, contamination: real, flagger: Flagger,
                   llmEnabled: bool, replies: nat -> Reply,
                   contextOf: Record -> string) returns (r: Result<AnomaliesResponse, Error>)
    ensures r == AnomaliesOf(logs, contamination, flagger, llmEnabled, replies, contextOf)
  {
    var df, numcols := AssembleDataFrame(logs);
    var anomalous: seq<Record> := [];
    if !df.Empty() {
      var detected := DetectAnomalies(df, numcols, contamination, flagger);
      if detected.Err? {
        return Err(detected.error);
      }
      anomalous := detected.value;
    }
    var results := CollectItems(anomalous, llmEnabled, replies, contextOf);
    r := Ok(AnomaliesResponse(|results|, results));
  }

  /** The loop of the /anomalies handler: per anomalous row, in order, one narrative
      (the k-th model call when the model is enabled) and one command set. */
  method CollectItems(anomalous: seq<Record>, llmEnabled: bool, replies: nat -> Reply,
                      contextOf: Record -> string) returns (results: seq<Item>)
    ensures results == Items(anomalous, llmEnabled, replies, contextOf)
  {
    results := [];
    var k := 0;
    while k < |anomalous|
      invariant 0 <= k <= |anomalous|
      invariant |results| == k
      invariant forall j :: 0 <= j < k ==> results[j] == MakeItem(anomalous[j], j, llmEnabled, replies, contextOf)
    {
      var row := anomalous[k];
      var rca := RcaText(contextOf(row), llmEnabled, replies(k));
      var cmds := DebugCommands(row);
      results := results + [Item(row, rca, cmds)];
      k := k + 1;
    }
  }

  /** The response counts its items; without records, or when the model finds no
      outlier, there are none; otherwise the k-th item is the k-th row flagged -1, in
      input order, carrying its flag, with its own narrative and commands. */
  lemma AnomaliesFollowFlags(logs: seq<Record>, contamination: real, flagger: Flagger,
                             llmEnabled: bool, replies: nat -> Reply,
                             contextOf: Record -> string)
    ensures var r := AnomaliesOf(logs, contamination, flagger, llmEnabled, replies, contextOf);
      r.Ok? ==> r.value.count == |r.value.items|
    ensures |logs| == 0 ==>
      AnomaliesOf(logs, contamination, flagger, llmEnabled, replies, contextOf) == Ok(AnomaliesResponse(0, []))
    ensures var cols := ColumnsOf(logs);
      var numcols := NumericColumns(logs, cols);
      FlagsStored(logs, cols, numcols, contamination, flagger) ==>
        var flags := flagger(contamination, FeatureMatrix(logs, numcols)).value;
        var idx := FlaggedPositions(WithColumn(logs, FLAG_COLUMN, FlagValues(flags)));
        var r := AnomaliesOf(logs, contamination, flagger, llmEnabled, replies, contextOf);
        && r.Ok? && r.value.count == |idx|
        && (forall i :: 0 <= i < |logs| ==> (i in idx <==> flags[i] == -1))
        && (forall k, l :: 0 <= k < l < |idx| ==> idx[k] < idx[l])
        && forall k :: 0 <= k < |idx| ==>
             var row := Put(logs[idx[k]], FLAG_COLUMN, Int(-1));
             r.value.items[k] == Item(row, RcaText(contextOf(row), llmEnabled, replies(k)), DebugCommands(logs[idx[k]]))
  {
    var cols := ColumnsOf(logs);
    var numcols := NumericColumns(logs, cols);
    DetectKeepsFlaggedRows(logs, cols, numcols, contamination, flagger);
    if FlagsStored(logs, cols, numcols, contamination, flagger) {
      var flags := flagger(contamination, FeatureMatrix(logs, numcols)).value;
      var idx := FlaggedPositions(WithColumn(logs, FLAG_COLUMN, FlagValues(flags)));
      forall k | 0 <= k < |idx| ensures DebugCommands(Put(logs[idx[k]], FLAG_COLUMN, Int(-1))) == DebugCommands(logs[idx[k]]) {
        CommandsIgnoreFlagColumn(logs[idx[k]], FLAG_COLUMN, Int(-1));
      }
    }
  }

  /** When every field holds a string or a bool and no record has a "value" field,
      there is nothing to score and the answer is an empty list. */
  lemma NoFeaturesNoAnomalies(logs: seq<Record>, contamination: real, flagger: Flagger,
                              llmEnabled: bool, replies: nat -> Reply,
                              contextOf: Record -> string)
    requires forall i, j :: 0 <= i < |logs| && 0 <= j < |logs[i]| ==>
               logs[i][j].value.Str? || logs[i][j].value.Bool?
    requires forall i :: 0 <= i < |logs| ==> VALUE_COLUMN !in Names(logs[i])
    ensures AnomaliesOf(logs, contamination, flagger, llmEnabled, replies, contextOf) == Ok(AnomaliesResponse(0, []))
  {
    var cols := ColumnsOf(logs);
    var numcols := NumericColumns(logs, cols);
    assert VALUE_COLUMN !in cols;
    forall c | c in cols
      ensures !IsNumericColumn(logs, c)
    {
      NotNumericWhenTextual(logs, c);
    }
    FirstIsMember(numcols);
  }

  /** A column that some record holds, and where every field is a string or a bool,
      is not numeric. */
  lemma NotNumericWhenTextual(logs: seq<Record>, c: string)
    requires forall i, j :: 0 <= i < |logs| && 0 <= j < |logs[i]| ==>
               logs[i][j].value.Str? || logs[i][j].value.Bool?
    requires c in ColumnsOf(logs)
    ensures !IsNumericColumn(logs, c)
  {
    var i :| 0 <= i < |logs| && c in Names(logs[i]);
    var r := logs[i];
    assert forall j :: 0 <= j < |r| ==> r[j].value.Str? || r[j].value.Bool?;
    TextualField(r, c);
  }

  lemma TextualField(r: Record, c: string)
    requires forall j :: 0 <= j < |r| ==> r[j].value.Str? || r[j].value.Bool?
    requires c in Names(r)
    ensures !NumberOrMissing(Lookup(r, c))
  {
    var j := IndexOf(Names(r), c);
    assert Lookup(r, c).value == r[j].value;
  }

  // ---------------------------------------------------------------------------
  // The source as written for an empty log file (see Findings in README.md)

  /** What assemble_dataframe returns as written: a bare DataFrame when there are no
      records, a (frame, numcols) pair otherwise. */
  datatype AssembledAsWritten = BareFrame | FramePair(rows: seq<Record>, numcols: seq<string>)

  function AssembleAsWritten(logs: seq<Record>): AssembledAsWritten {
    if |logs| == 0 then BareFrame else FramePair(logs, NumericColumns(logs, ColumnsOf(logs)))
  }

  /** `df, numcols = ...` at app.py:89: unpacking iterates the value; a bare empty
      DataFrame yields no column labels, so Python raises ValueError. */
  function UnpackAsWritten(a: AssembledAsWritten): Result<seq<string>, Error> {
    match a
    case BareFrame => Err(UnpackFailed)
    case FramePair(_, numcols) => Ok(numcols)
  }

  /** GET /anomalies exactly as written. */
  function AnomaliesAsWritten(logs: seq<Record>, contamination: real, flagger: Flagger,
                              llmEnabled: bool, replies: nat -> Reply,
                              contextOf: Record -> string): Result<AnomaliesResponse, Error>
  {
    match UnpackAsWritten(AssembleAsWritten(logs))
    case Err(e) => Err(e)
    case Ok(_) => AnomaliesOf(logs, contamination, flagger, llmEnabled, replies, contextOf)
  }

  /** As written, a missing or empty log file makes GET /anomalies (and with it
      POST /scan-and-notify) fail with ValueError instead of answering count 0; with
      any record it agrees with the corrected model. */
  lemma EmptyLogsFailAsWritten(contamination: real, flagger: Flagger, llmEnabled: bool,
                               replies: nat -> Reply, contextOf: Record -> string, logs: seq<Record>)
    ensures AnomaliesAsWritten([], contamination, flagger, llmEnabled, replies, contextOf) == Err(UnpackFailed)
    ensures |logs| > 0 ==>
      AnomaliesAsWritten(logs, contamination, flagger, llmEnabled, replies, contextOf)
        == AnomaliesOf(logs, contamination, flagger, llmEnabled, replies, contextOf)
  {
  }

  /** Corrected: with no records the handler answers {"count": 0, "items": []} and no
      narrative is generated. */
  method EmptyLogsGiveNoAnomalies(contamination: real, flagger: Flagger, llmEnabled: bool,
                                  replies: nat -> Reply, contextOf: Record -> string)
    returns (r: Result<AnomaliesResponse, Error>)
    ensures r == Ok(AnomaliesResponse(0, []))
  {
    r := Anomalies([], contamination, flagger, llmEnabled, replies, contextOf);
  }

  // ---------------------------------------------------------------------------
  // POST /scan-and-notify

  const SUMMARY_PREFIX := "Reliability Copilot: "
  const SUMMARY_MIDDLE := " anomaly(ies). First RCA: "
  const NO_ANOMALIES := "no anomalies"

  /** f"Reliability Copilot: {count} anomaly(ies). First RCA: {rca}" */
  function Summary(count: nat, rca: string): string {
    SUMMARY_PREFIX + NatText(count) + SUMMARY_MIDDLE + rca
  }

  /** Reads a summary back into its count and narrative. */
  function ParseSummary(s: string): Option<(nat, string)> {
    if !StartsWith(s, SUMMARY_PREFIX) then None
    else
      var rest := s[|SUMMARY_PREFIX|..];
      var n := LeadingDigits(rest);
      var tail := rest[n..];
      if n == 0 || !StartsWith(tail, SUMMARY_MIDDLE) then None
      else Some((ParseDigits(rest[..n]), tail[|SUMMARY_MIDDLE|..]))
  }

  /** The summary carries the count and the first narrative without loss. */
  lemma SummaryRoundTrip(count: nat, rca: string)
    ensures ParseSummary(Summary(count, rca)) == Some((count, rca))
  {
    var s := Summary(count, rca);
    var digits := NatText(count);
    assert s == SUMMARY_PREFIX + (digits + SUMMARY_MIDDLE + rca);
    var rest := s[|SUMMARY_PREFIX|..];
    assert rest == digits + (SUMMARY_MIDDLE + rca);
    LeadingDigitsOf(digits, SUMMARY_MIDDLE + rca);
    assert rest[..|digits|] == digits;
    assert rest[|digits|..] == SUMMARY_MIDDLE + rca;
    NatTextRoundTrip(count);
  }

  /** The outcome of the best-effort Slack post; the handler swallows any failure. */
  datatype Delivery = Delivered | DeliveryFailed

  datatype ScanResponse = NotNotified(reason: string) | Notified(summary: string)

  /** The body the handler answers with, and the text posted to the webhook, if any. */
  datatype ScanEffect = ScanEffect(response: ScanResponse, posted: Option<string>)

  predicate CountsItems(resp: AnomaliesResponse) {
    resp.count == |resp.items|
  }

  /** scan_and_notify on the answer of anomalies(): nothing is posted for no anomalies;
      otherwise the summary names the count and the first narrative, it is posted
      exactly when a webhook is configured, and the handler reports it notified
      whatever became of the post. An exception from anomalies() propagates. */
  function ScanAndNotify(anomalies: Result<AnomaliesResponse, Error>, webhook: string,
                         delivery: Delivery): (r: Result<ScanEffect, Error>)
    requires anomalies.Ok? ==> CountsItems(anomalies.value)
    ensures anomalies.Err? ==> r == Err(anomalies.error)
    ensures anomalies.Ok? && anomalies.value.count == 0 ==>
              r == Ok(ScanEffect(NotNotified(NO_ANOMALIES), None))
    ensures anomalies.Ok? && anomalies.value.count > 0 ==>
              && r.Ok? && r.value.response.Notified?
              && r.value.response.summary == Summary(anomalies.value.count, anomalies.value.items[0].rca)
              && ParseSummary(r.value.response.summary)
                   == Some((anomalies.value.count, anomalies.value.items[0].rca))
              && r.value.posted == (if webhook != "" then Some(r.value.response.summary) else None)
  {
    match anomalies
    case Err(e) => Err(e)
    case Ok(resp) =>
      if resp.count == 0 then Ok(ScanEffect(NotNotified(NO_ANOMALIES), None))
      else
        var summary := Summary(resp.count, resp.items[0].rca);
        SummaryRoundTrip(resp.count, resp.items[0].rca);
        Ok(ScanEffect(Notified(summary), if webhook != "" then Some(summary) else None))
  }

  /** The delivery outcome never shows in what the handler answers. */
  lemma NotifiedWhateverTheDelivery(anomalies: Result<AnomaliesResponse, Error>, webhook: string)
    requires anomalies.Ok? ==> CountsItems(anomalies.value)
    ensures ScanAndNotify(anomalies, webhook, Delivered) == ScanAndNotify(anomalies, webhook, DeliveryFailed)
  {
  }

  // ---------------------------------------------------------------------------
  // POST /run-action

  /** The request body: a JSON object, whose "action" member may be absent (read as
      null), or anything request.json.get cannot read. */
  datatype ActionBody<T> = JsonObject(action: Option<T>) | Unreadable

  datatype ActionResponse<T> =
    | Forbidden             // abort(403)
    | BadBody               // request.json or .get failed: an error response
    | Executed(echo: Option<T>)  // {"status": "ok", "executed": action}

  /** The X-APPROVAL-TOKEN header, "" when missing. */
  function HeaderToken(header: Option<string>): string {
    match header
    case None => ""
    case Some(t) => t
  }

  /** run_action: refuse unless the header equals the approval token, and only then
      read the body and echo its action unchanged; nothing is executed. */
  function RunAction<T>(header: Option<string>, approvalToken: string, body: ActionBody<T>): (r: ActionResponse<T>)
    ensures r.Forbidden? <==> HeaderToken(header) != approvalToken
    ensures r.Executed? <==> HeaderToken(header) == approvalToken && body.JsonObject?
    ensures r.Executed? ==> r.echo == body.action
  {
    if HeaderToken(header) != approvalToken then Forbidden
    else
      match body
      case Unreadable => BadBody
      case JsonObject(action) => Executed(action)
  }

  /** The token is checked before the body is read: a refused request's answer does
      not depend on the body at all. A missing header is the empty token, so it passes
      only when the approval token itself is empty. */
  lemma TokenCheckedFirst<T>(header: Option<string>, approvalToken: string,
                            body: ActionBody<T>, body': ActionBody<T>)
    ensures HeaderToken(header) != approvalToken ==>
              RunAction(header, approvalToken, body) == RunAction(header, approvalToken, body') == Forbidden
    ensures RunAction(None, approvalToken, body) == RunAction(Some(""), approvalToken, body)
    ensures RunAction(None, approvalToken, body).Forbidden? <==> approvalToken != ""
  {
  }
}
