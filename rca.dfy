/** Root-cause narration (generate_rca_text) and debug-command templating
    (make_debug_commands). */
module Rca {
  import opened Text
  import opened Values

  const ERROR_RATE_MESSAGE := "High error rate \U{2014} check app logs and recent deploys. Suggested: kubectl logs <pod> -n <ns>"
  const OOM_MESSAGE := "OOMKilled \U{2014} likely memory limit; inspect pod and deployment requests/limits."
  const LATENCY_MESSAGE := "Latency spike \U{2014} check backend downstreams and CPU/threads."
  const GENERIC_MESSAGE := "Anomaly detected \U{2014} check pod logs and metrics (kubectl describe/logs)."
  const OPENAI_FALLBACK_MESSAGE := "RCA fallback: inspect logs/metrics. (openai error)"

  predicate MentionsErrors(low: string) {
    Contains(low, "error") || Contains(low, "5xx")
  }

  predicate MentionsOom(low: string) {
    Contains(low, "oom") || Contains(low, "oomkilled")
  }

  predicate MentionsLatency(low: string) {
    Contains(low, "latency") || Contains(low, "ms")
  }

  /** The keyword heuristic of generate_rca_text: lower-case the context, then the
      first keyword group that occurs decides the message. */
  function Heuristic(context: string): (r: string)
    ensures var low := Lower(context);
      && (r == ERROR_RATE_MESSAGE <==> MentionsErrors(low))
      && (r == OOM_MESSAGE <==> !MentionsErrors(low) && MentionsOom(low))
      && (r == LATENCY_MESSAGE <==> !MentionsErrors(low) && !MentionsOom(low) && MentionsLatency(low))
      && (r == GENERIC_MESSAGE <==> !MentionsErrors(low) && !MentionsOom(low) && !MentionsLatency(low))
    ensures r in {ERROR_RATE_MESSAGE, OOM_MESSAGE, LATENCY_MESSAGE, GENERIC_MESSAGE}
  {
    var low := Lower(context);
    if MentionsErrors(low) then ERROR_RATE_MESSAGE
    else if MentionsOom(low) then OOM_MESSAGE
    else if MentionsLatency(low) then LATENCY_MESSAGE
    else GENERIC_MESSAGE
  }

  /** The "oomkilled" test can never decide anything: a text containing it contains
      "oom", which is tested first in the same group. */
  lemma OomKilledIsSubsumed(low: string)
    ensures MentionsOom(low) <==> Contains(low, "oom")
  {
    if Contains(low, "oomkilled") {
      assert "oomkilled" == "oom" + "killed";
      ContainsPrefixOfWord(low, "oom", "killed");
    }
  }

  /** The heuristic stated on the original context with case ignored: the error group
      wins whenever "error" or "5xx" occurs in any letter case, however the context
      also mentions memory or latency; otherwise "oom"; otherwise "latency" or "ms";
      otherwise the generic message. */
  lemma HeuristicIgnoresCase(context: string)
    ensures Heuristic(context) == ERROR_RATE_MESSAGE <==>
              ContainsIgnoringCase(context, "error") || ContainsIgnoringCase(context, "5xx")
    ensures Heuristic(context) == OOM_MESSAGE <==>
              && !ContainsIgnoringCase(context, "error") && !ContainsIgnoringCase(context, "5xx")
              && ContainsIgnoringCase(context, "oom")
    ensures Heuristic(context) == LATENCY_MESSAGE <==>
              && !ContainsIgnoringCase(context, "error") && !ContainsIgnoringCase(context, "5xx")
              && !ContainsIgnoringCase(context, "oom")
              && (ContainsIgnoringCase(context, "latency") || ContainsIgnoringCase(context, "ms"))
    ensures Heuristic(context) == GENERIC_MESSAGE <==>
              && !ContainsIgnoringCase(context, "error") && !ContainsIgnoringCase(context, "5xx")
              && !ContainsIgnoringCase(context, "oom")
              && !ContainsIgnoringCase(context, "latency") && !ContainsIgnoringCase(context, "ms")
  {
    var low := Lower(context);
    LowerContains(context, "error");
    LowerContains(context, "5xx");
    LowerContains(context, "oom");
    LowerContains(context, "latency");
    LowerContains(context, "ms");
    OomKilledIsSubsumed(low);
  }

  /** One call of the generative model: its reply text, or an exception. */
  datatype Reply = Replied(content: string) | Failed

  /** generate_rca_text. `llmEnabled` is OPENAI_KEY being set and the openai package
      importable; `reply` is what the one chat-completion call returns when made. */
  function RcaText(context: string, llmEnabled: bool, reply: Reply): (r: string)
    ensures llmEnabled && reply.Replied? ==> StrippedFrom(reply.content, r)
    ensures llmEnabled && reply.Failed? ==> r == OPENAI_FALLBACK_MESSAGE
    ensures !llmEnabled ==> r == Heuristic(context)
  {
    if llmEnabled then
      match reply
      case Replied(content) => Strip(content)
      case Failed => OPENAI_FALLBACK_MESSAGE
    else Heuristic(context)
  }

  /** A failed model call does not fall through to the heuristic: its fixed message is
      none of the four heuristic messages, and it does not depend on the context. */
  lemma FailureDoesNotFallThrough(context: string, other: string)
    ensures RcaText(context, true, Failed) !in
              {ERROR_RATE_MESSAGE, OOM_MESSAGE, LATENCY_MESSAGE, GENERIC_MESSAGE}
    ensures RcaText(context, true, Failed) == RcaText(other, true, Failed)
  {
  }

  /** A model reply is used with surrounding whitespace removed, and nothing else of it
      changes. */
  lemma ReplyIsStripped(context: string, content: string)
    ensures RcaText(context, true, Replied(content)) == Strip(content)
    ensures var r := RcaText(context, true, Replied(content));
      r == [] || (!IsSpace(r[0]) && !IsSpace(r[|r| - 1]))
  {
    StripUnique(content, RcaText(context, true, Replied(content)));
  }

  const POD_DEFAULT := "<pod>"
  const NAMESPACE_DEFAULT := "default"

  /** row.get(key, default), as an f-string renders it. */
  function FieldText(row: Record, key: string, default: string): (t: string)
    ensures Lookup(row, key).None? ==> t == default
    ensures Lookup(row, key).Some? ==> t == Render(Lookup(row, key).value)
  {
    match Lookup(row, key)
    case None => default
    case Some(v) => Render(v)
  }

  function PodOf(row: Record): string {
    FieldText(row, "pod", POD_DEFAULT)
  }

  function NamespaceOf(row: Record): string {
    FieldText(row, "namespace", NAMESPACE_DEFAULT)
  }

  /** make_debug_commands: exactly the keys describe, logs and top, each the kubectl
      command line of its template with the row's pod and namespace filled in. */
  function DebugCommands(row: Record): (m: map<string, string>)
    ensures m.Keys == {"describe", "logs", "top"}
    ensures m["describe"] == "kubectl describe pod " + PodOf(row) + " -n " + NamespaceOf(row)
    ensures m["logs"] == "kubectl logs " + PodOf(row) + " -n " + NamespaceOf(row) + " --tail=200"
    ensures m["top"] == "kubectl top pod " + PodOf(row) + " -n " + NamespaceOf(row)
  {
    var pod := PodOf(row);
    var ns := NamespaceOf(row);
    map["describe" := "kubectl describe pod " + pod + " -n " + ns,
        "logs" := "kubectl logs " + pod + " -n " + ns + " --tail=200",
        "top" := "kubectl top pod " + pod + " -n " + ns]
  }

  /** The commands depend on nothing but the pod and namespace fields; in particular
      storing the anomaly flag in the row does not change them. */
  lemma CommandsReadOnlyPodAndNamespace(row: Record, row': Record)
    requires Lookup(row, "pod") == Lookup(row', "pod")
    requires Lookup(row, "namespace") == Lookup(row', "namespace")
    ensures DebugCommands(row) == DebugCommands(row')
  {
  }

  lemma CommandsIgnoreFlagColumn(row: Record, flagColumn: string, v: Scalar)
    requires flagColumn != "pod" && flagColumn != "namespace"
    ensures DebugCommands(Put(row, flagColumn, v)) == DebugCommands(row)
  {
    PutLookupOther(row, flagColumn, v, "pod");
    PutLookupOther(row, flagColumn, v, "namespace");
  }

  /** With string pod and namespace fields the commands are exactly the three
      templates filled with them; the "<pod>" / "default" placeholders only stand in
      for absent fields. */
  lemma CommandsForNamedPod(row: Record, pod: string, ns: string)
    requires Lookup(row, "pod") == Some(Str(pod)) && Lookup(row, "namespace") == Some(Str(ns))
    ensures DebugCommands(row) == map[
      "describe" := "kubectl describe pod " + pod + " -n " + ns,
      "logs" := "kubectl logs " + pod + " -n " + ns + " --tail=200",
      "top" := "kubectl top pod " + pod + " -n " + ns]
  {
  }
}
