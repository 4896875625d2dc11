/** The decision tree of `main` in main.go: given the `-domain` and `-update`
    flags and what the RIPEstat zonemaster endpoint answers, which requests
    the program makes, in which order, and what it prints. */
module Orchestrator {
  import opened Outcomes
  import Render

  /** What the endpoint answers, as seen by `main`. The network is a parameter:
      `summary` is the cached-results request for a domain (the `id` of each
      entry of `data.result`), `details` the details request for one result id
      (the records of `data.result.results`), and `trigger` the request that
      starts a new scan for a domain. */
  datatype Network = Network(
    summary: string -> Result<seq<string>>,
    details: string -> Result<seq<Render.Record>>,
    trigger: string -> Result<()>)

  /** What `main` prints. The status narratives are kept as one constant
      message each; only which one is printed is modelled. */
  datatype Line =
    | Usage                             // the missing-domain hint
    | ScanFailed(error: string)         // a forced scan could not be started
    | ScanStarted(domain: string)       // the forced-scan narrative
    | FetchFailed(error: string)        // "Error:" and the error
    | NoCachedResults(domain: string)   // the empty-summary notice
    | RetryScanFailed(error: string)    // "[ERROR]" scan start after an empty summary
    | RetryScanStarted(domain: string)  // the narrative after that scan started
    | Rendered(text: string)            // the rendered details

  /** One step of a run: a request to the endpoint, or a printed line. */
  datatype Action =
    | FetchSummary(resource: string)
    | FetchDetails(resource: string)
    | TriggerScan(resource: string)
    | Emit(line: Line)

  /** The line printed once the scan request of the `-update` path has answered. */
  function ForcedScanLine(domain: string, answer: Result<()>): Line
  {
    match answer
    case Err(e) => ScanFailed(e)
    case Ok(_) => ScanStarted(domain)
  }

  /** The line printed once the scan request after an empty summary has answered. */
  function RetryScanLine(domain: string, answer: Result<()>): Line
  {
    match answer
    case Err(e) => RetryScanFailed(e)
    case Ok(_) => RetryScanStarted(domain)
  }

  /** The line printed once the details request has answered. */
  function DetailsLine(answer: Result<seq<Render.Record>>): Line
  {
    match answer
    case Err(e) => FetchFailed(e)
    case Ok(rs) => Rendered(Render.Output(rs))
  }

  /** Everything one run of the program does, in order. */
  function Run(domain: string, update: bool, net: Network): (trace: seq<Action>)
    ensures trace != [] && trace[|trace| - 1].Emit?
    ensures trace[0] == Emit(Usage) <==> domain == ""
    ensures update && domain != "" ==> trace[0] == TriggerScan(domain)
    ensures !update && domain != "" ==> trace[0] == FetchSummary(domain)
  {
    if domain == "" then [Emit(Usage)]
    else if update then
      [TriggerScan(domain), Emit(ForcedScanLine(domain, net.trigger(domain)))]
    else
      match net.summary(domain)
      case Err(e) => [FetchSummary(domain), Emit(FetchFailed(e))]
      case Ok(ids) =>
        if |ids| == 0 then
          [FetchSummary(domain), Emit(NoCachedResults(domain)),
           TriggerScan(domain), Emit(RetryScanLine(domain, net.trigger(domain)))]
        else
          [FetchSummary(domain), FetchDetails(ids[0]), Emit(DetailsLine(net.details(ids[0])))]
  }

  /** The requests of a trace, in order. */
  function Requests(t: seq<Action>): (r: seq<Action>)
    ensures forall i :: 0 <= i < |r| ==> !r[i].Emit?
  {
    if t == [] then []
    else if t[|t| - 1].Emit? then Requests(t[..|t| - 1])
    else Requests(t[..|t| - 1]) + [t[|t| - 1]]
  }

  /** The printed lines of a trace, in order. */
  function Lines(t: seq<Action>): (r: seq<Line>)
    ensures |r| == |t| - |Requests(t)|
  {
    if t == [] then []
    else if t[|t| - 1].Emit? then Lines(t[..|t| - 1]) + [t[|t| - 1].line]
    else Lines(t[..|t| - 1])
  }

  /** The requests and lines of a one-step trace. */
  lemma Single(x: Action)
    ensures Requests([x]) == if x.Emit? then [] else [x]
    ensures Lines([x]) == if x.Emit? then [x.line] else []
  {
    assert [x][..0] == [];
  }

  /** A request followed by a line. */
  lemma RequestThenLine(x: Action, l: Line)
    requires !x.Emit?
    ensures Requests([x, Emit(l)]) == [x]
    ensures Lines([x, Emit(l)]) == [l]
  {
    assert [x, Emit(l)][..1] == [x];
    Single(x);
  }

  /** Two requests followed by a line. */
  lemma TwoRequestsThenLine(x: Action, y: Action, l: Line)
    requires !x.Emit? && !y.Emit?
    ensures Requests([x, y, Emit(l)]) == [x, y]
    ensures Lines([x, y, Emit(l)]) == [l]
  {
    assert [x, y, Emit(l)][..2] == [x, y];
    assert [x, y][..1] == [x];
    Single(x);
  }

  /** A request, a line, a request, a line. */
  lemma Alternating(x: Action, l1: Line, y: Action, l2: Line)
    requires !x.Emit? && !y.Emit?
    ensures Requests([x, Emit(l1), y, Emit(l2)]) == [x, y]
    ensures Lines([x, Emit(l1), y, Emit(l2)]) == [l1, l2]
  {
    assert [x, Emit(l1), y, Emit(l2)][..3] == [x, Emit(l1), y];
    assert [x, Emit(l1), y][..2] == [x, Emit(l1)];
    RequestThenLine(x, l1);
  }

  /** No domain: the hint is printed and nothing is requested. */
  lemma EmptyDomainNoRequest(update: bool, net: Network)
    ensures Requests(Run("", update, net)) == []
    ensures Lines(Run("", update, net)) == [Usage]
  {
    assert [Emit(Usage)][..0] == [];
  }

  /** With `-update`, only a scan is started: the cached results and the details
      are never requested, and the scan request comes before any line. */
  lemma UpdateForcesScan(domain: string, net: Network)
    requires domain != ""
    ensures Requests(Run(domain, true, net)) == [TriggerScan(domain)]
    ensures Lines(Run(domain, true, net)) ==
      [if net.trigger(domain).Ok? then ScanStarted(domain) else ScanFailed(net.trigger(domain).error)]
  {
    RequestThenLine(TriggerScan(domain), ForcedScanLine(domain, net.trigger(domain)));
  }

  /** With `-update`, the run depends on nothing but the answer to the scan request. */
  lemma UpdateIgnoresCache(domain: string, net: Network, other: Network)
    requires other.trigger(domain) == net.trigger(domain)
    ensures Run(domain, true, other) == Run(domain, true, net)
  {
  }

  /** A failed summary request prints the error and stops: no scan, no details. */
  lemma SummaryErrorStops(domain: string, net: Network)
    requires domain != "" && net.summary(domain).Err?
    ensures Requests(Run(domain, false, net)) == [FetchSummary(domain)]
    ensures Lines(Run(domain, false, net)) == [FetchFailed(net.summary(domain).error)]
  {
    RequestThenLine(FetchSummary(domain), FetchFailed(net.summary(domain).error));
  }

  /** No cached results: the notice is printed first, then a scan is started for
      the same domain, and the details are never requested. */
  lemma EmptySummaryTriggers(domain: string, net: Network)
    requires domain != "" && net.summary(domain) == Ok([])
    ensures Requests(Run(domain, false, net)) == [FetchSummary(domain), TriggerScan(domain)]
    ensures Lines(Run(domain, false, net)) ==
      [NoCachedResults(domain),
       if net.trigger(domain).Ok? then RetryScanStarted(domain) else RetryScanFailed(net.trigger(domain).error)]
    ensures Run(domain, false, net)[1] == Emit(NoCachedResults(domain))
    ensures Run(domain, false, net)[2] == TriggerScan(domain)
  {
    Alternating(FetchSummary(domain), NoCachedResults(domain),
                TriggerScan(domain), RetryScanLine(domain, net.trigger(domain)));
  }

  /** Cached results exist: the details are requested for the first result id,
      right after the summary, and one line ends the run. */
  lemma FirstHandleUsed(domain: string, ids: seq<string>, net: Network)
    requires domain != "" && net.summary(domain) == Ok(ids) && |ids| > 0
    ensures Requests(Run(domain, false, net)) == [FetchSummary(domain), FetchDetails(ids[0])]
    ensures Lines(Run(domain, false, net)) == [DetailsLine(net.details(ids[0]))]
  {
    TwoRequestsThenLine(FetchSummary(domain), FetchDetails(ids[0]), DetailsLine(net.details(ids[0])));
  }

  /** Only the first result id matters: two summaries that agree on it lead to
      the same run. */
  lemma OnlyFirstHandleMatters(domain: string, net: Network, other: Network)
    requires net.summary(domain).Ok? && |net.summary(domain).value| > 0
    requires other.summary(domain).Ok? && |other.summary(domain).value| > 0
    requires other.summary(domain).value[0] == net.summary(domain).value[0]
    requires other.details(net.summary(domain).value[0]) == net.details(net.summary(domain).value[0])
    ensures Run(domain, false, other) == Run(domain, false, net)
  {
  }

  /** A failed details request prints the error and renders nothing. */
  lemma DetailsErrorRendersNothing(domain: string, ids: seq<string>, net: Network)
    requires domain != "" && net.summary(domain) == Ok(ids) && |ids| > 0
    requires net.details(ids[0]).Err?
    ensures Lines(Run(domain, false, net)) == [FetchFailed(net.details(ids[0]).error)]
  {
    FirstHandleUsed(domain, ids, net);
  }

  /** A successful details request prints exactly the rendered records. */
  lemma SuccessRenders(domain: string, ids: seq<string>, rs: seq<Render.Record>, net: Network)
    requires domain != "" && net.summary(domain) == Ok(ids) && |ids| > 0
    requires net.details(ids[0]) == Ok(rs)
    ensures Lines(Run(domain, false, net)) == [Rendered(Render.Output(rs))]
  {
    FirstHandleUsed(domain, ids, net);
  }

  /** Over every run: at most two requests, never both a scan and a details
      request, and details only after a non-empty summary, for its first id. */
  lemma RequestsOfAnyRun(domain: string, update: bool, net: Network)
    ensures var req := Requests(Run(domain, update, net));
      |req| <= 2
      && (forall i, j :: 0 <= i < |req| && 0 <= j < |req| && req[i].TriggerScan? ==> !req[j].FetchDetails?)
      && forall i :: 0 <= i < |req| && req[i].FetchDetails? ==>
           net.summary(domain).Ok? && |net.summary(domain).value| > 0
           && req[i].resource == net.summary(domain).value[0]
  {
    if domain == "" {
      EmptyDomainNoRequest(update, net);
    } else if update {
      UpdateForcesScan(domain, net);
    } else if net.summary(domain).Err? {
      SummaryErrorStops(domain, net);
    } else if net.summary(domain).value == [] {
      EmptySummaryTriggers(domain, net);
    } else {
      FirstHandleUsed(domain, net.summary(domain).value, net);
    }
  }

  /** Over every run: one or two lines, and a details rendering is printed only
      when the details request succeeded, and then it is those details. */
  lemma LinesOfAnyRun(domain: string, update: bool, net: Network)
    ensures var ls := Lines(Run(domain, update, net));
      1 <= |ls| <= 2
      && forall i :: 0 <= i < |ls| && ls[i].Rendered? ==>
           net.summary(domain).Ok? && |net.summary(domain).value| > 0
           && net.details(net.summary(domain).value[0]).Ok?
           && ls[i].text == Render.Output(net.details(net.summary(domain).value[0]).value)
  {
    if domain == "" {
      EmptyDomainNoRequest(update, net);
    } else if update {
      UpdateForcesScan(domain, net);
    } else if net.summary(domain).Err? {
      SummaryErrorStops(domain, net);
    } else if net.summary(domain).value == [] {
      EmptySummaryTriggers(domain, net);
    } else {
      FirstHandleUsed(domain, net.summary(domain).value, net);
    }
  }
}
