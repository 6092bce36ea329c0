/** VehiclesController.SearchVehicles: the search endpoint, which reports
    progress, every listing and completion to the SignalR hub's clients. */
module VehiclesController {
  import opened Wrappers
  import opened Models

  /** The hub messages the endpoint sends, by method name. */
  datatype HubEvent =
    | ReceiveSearchProgress(message: string)
    | ReceiveVehicleResult(result: VehicleSearchResultDto)
    | ReceiveSearchComplete(count: int)

  const SearchStartedMessage: string := "Search started..."
  const SearchErrorMessage: string := "An error occurred while searching for vehicles"
  const Status500InternalServerError: int := 500

  /** The endpoint's response: 200 with the listings, or a status code with
      a message. */
  datatype ActionResult =
    | Ok(results: seq<VehicleSearchResultDto>)
    | StatusCode(status: int, message: string)

  /** IMediator.Send for a SearchVehiclesQuery: the listings, or the
      exception the search threw. */
  type Mediator = VehicleSearchCriteria -> SearchOutcome

  /** Clients.All of the hub: the events delivered so far, in order. Send
      attempt number `n` throws when `faulty(n)`. */
  class HubClients {
    var log: seq<HubEvent>
    var attempts: nat
    const faulty: nat -> bool

    constructor (faulty: nat -> bool)
      ensures log == [] && attempts == 0 && this.faulty == faulty
    {
      log := [];
      attempts := 0;
      this.faulty := faulty;
    }

    /** SendAsync: delivers the event, or throws and delivers nothing. */
    method SendAsync(e: HubEvent) returns (ok: bool)
      modifies this
      ensures attempts == old(attempts) + 1
      ensures ok == !faulty(old(attempts))
      ensures log == if ok then old(log) + [e] else old(log)
    {
      ok := !faulty(attempts);
      if ok {
        log := log + [e];
      }
      attempts := attempts + 1;
    }
  }

  /** The result events for the listings, in list order. */
  function ResultEvents(results: seq<VehicleSearchResultDto>): (es: seq<HubEvent>)
    ensures |es| == |results|
    ensures forall i :: 0 <= i < |results| ==> es[i] == ReceiveVehicleResult(results[i])
  {
    if results == [] then []
    else ResultEvents(results[..|results| - 1]) + [ReceiveVehicleResult(results[|results| - 1])]
  }

  /** The events the endpoint sends when no send throws: progress, then, if
      the mediator answers, one event per listing and the completion. */
  function SearchEvents(outcome: SearchOutcome): (es: seq<HubEvent>)
    ensures |es| >= 1 && es[0] == ReceiveSearchProgress(SearchStartedMessage)
    ensures outcome.Failure? ==> |es| == 1
    ensures outcome.Success? ==> |es| == |outcome.value| + 2 && es[|es| - 1] == ReceiveSearchComplete(|outcome.value|)
  {
    [ReceiveSearchProgress(SearchStartedMessage)] +
    match outcome
    case Success(results) => ResultEvents(results) + [ReceiveSearchComplete(|results|)]
    case Failure(_) => []
  }

  /** How many of `n` send attempts, starting at attempt `at`, succeed
      before the first that throws. */
  function Delivered(faulty: nat -> bool, at: nat, n: nat): (k: nat)
    ensures k <= n
    decreases n
  {
    if n == 0 || faulty(at) then 0 else 1 + Delivered(faulty, at + 1, n - 1)
  }

  /** The attempts counted by Delivered all succeed, and the one after them,
      if any, throws. */
  lemma {:induction false} DeliveredSpec(faulty: nat -> bool, at: nat, n: nat)
    ensures forall j :: at <= j < at + Delivered(faulty, at, n) ==> !faulty(j)
    ensures Delivered(faulty, at, n) < n ==> faulty(at + Delivered(faulty, at, n))
    decreases n
  {
    if n > 0 && !faulty(at) {
      DeliveredSpec(faulty, at + 1, n - 1);
    }
  }

  /** Once `i` attempts are known to succeed, attempt `i` decides whether
      the count stops there. */
  lemma {:induction false} DeliveredAt(faulty: nat -> bool, at: nat, n: nat, i: nat)
    requires i < n && Delivered(faulty, at, n) >= i
    ensures Delivered(faulty, at, n) == i <==> faulty(at + i)
    decreases i
  {
    if i > 0 {
      DeliveredAt(faulty, at + 1, n - 1, i - 1);
    }
  }

  /** What one call of the endpoint does: the events it delivers, the send
      attempts it makes and its response. */
  datatype Run = Run(delivered: seq<HubEvent>, sendAttempts: nat, response: ActionResult)

  /** The endpoint's behaviour: its events are sent in order until one send
      throws, and no send is attempted after that. Any exception, from a send
      or from the mediator, gives status 500 with a fixed message; events
      already sent stay sent. */
  function SearchRun(faulty: nat -> bool, at: nat, outcome: SearchOutcome): (r: Run)
    ensures r.delivered <= SearchEvents(outcome)
    ensures |r.delivered| <= r.sendAttempts <= |r.delivered| + 1
  {
    var events := SearchEvents(outcome);
    var k := Delivered(faulty, at, |events|);
    Run(events[..k],
        if k < |events| then k + 1 else k,
        if k == |events| && outcome.Success? then Ok(outcome.value)
        else StatusCode(Status500InternalServerError, SearchErrorMessage))
  }

  class VehiclesControllerState {
    const mediator: Mediator
    const hubContext: HubClients

    constructor (mediator: Mediator, hubContext: HubClients)
      ensures this.mediator == mediator && this.hubContext == hubContext
    {
      this.mediator := mediator;
      this.hubContext := hubContext;
    }

    /** SearchVehicles: appends to the hub's log what SearchRun delivers and
        answers what SearchRun answers. */
    method SearchVehicles(criteria: VehicleSearchCriteria) returns (response: ActionResult)
      modifies hubContext
      ensures var run := SearchRun(hubContext.faulty, old(hubContext.attempts), mediator(criteria));
              hubContext.log == old(hubContext.log) + run.delivered &&
              hubContext.attempts == old(hubContext.attempts) + run.sendAttempts &&
              response == run.response
    {
      ghost var log0 := hubContext.log;
      ghost var at := hubContext.attempts;
      var failed := StatusCode(Status500InternalServerError, SearchErrorMessage);

      var ok := hubContext.SendAsync(ReceiveSearchProgress(SearchStartedMessage));
      if !ok {
        RunProgressFails(hubContext.faulty, at, mediator(criteria));
        return failed;
      }

      var outcome := mediator(criteria);
      if outcome.Failure? {
        RunMediatorFails(hubContext.faulty, at, outcome.error);
        return failed;
      }
      var results := outcome.value;

      ok := SendResults(results);
      ghost var k := Delivered(hubContext.faulty, at + 1, |results|);
      AppendAssoc(log0, [ReceiveSearchProgress(SearchStartedMessage)], ResultEvents(results)[..k]);
      if !ok {
        RunResultFails(hubContext.faulty, at, results);
        return failed;
      }

      ok := hubContext.SendAsync(ReceiveSearchComplete(|results|));
      if !ok {
        RunCompleteFails(hubContext.faulty, at, results);
        assert ResultEvents(results)[..k] == ResultEvents(results);
        return failed;
      }
      RunSucceeds(hubContext.faulty, at, results);
      AppendAssoc(log0, [ReceiveSearchProgress(SearchStartedMessage)] + ResultEvents(results),
                  [ReceiveSearchComplete(|results|)]);
      return Ok(results);
    }

    /** The foreach over the listings: one result event per listing, in list
        order, until a send throws. */
    method SendResults(results: seq<VehicleSearchResultDto>) returns (ok: bool)
      modifies hubContext
      ensures var k := Delivered(hubContext.faulty, old(hubContext.attempts), |results|);
              hubContext.log == old(hubContext.log) + ResultEvents(results)[..k] &&
              hubContext.attempts == old(hubContext.attempts) + (if k < |results| then k + 1 else k) &&
              ok == (k == |results|)
    {
      ghost var log0 := hubContext.log;
      ghost var at := hubContext.attempts;
      var i := 0;
      while i < |results|
        invariant 0 <= i <= |results|
        invariant hubContext.attempts == at + i
        invariant Delivered(hubContext.faulty, at, |results|) >= i
        invariant hubContext.log == log0 + ResultEvents(results)[..i]
      {
        DeliveredAt(hubContext.faulty, at, |results|, i);
        ok := hubContext.SendAsync(ReceiveVehicleResult(results[i]));
        if !ok {
          return;
        }
        assert ResultEvents(results)[..i + 1] == ResultEvents(results)[..i] + [ReceiveVehicleResult(results[i])];
        i := i + 1;
      }
      return true;
    }
  }

  lemma AppendAssoc<T>(a: seq<T>, b: seq<T>, c: seq<T>)
    ensures a + b + c == a + (b + c)
  {
  }

  /** The send attempts for a batch of events split at any point: the first
      `a` are tried, and the rest only when none of those threw. */
  lemma {:induction false} DeliveredSplit(faulty: nat -> bool, at: nat, a: nat, b: nat)
    ensures Delivered(faulty, at, a + b) ==
            if Delivered(faulty, at, a) < a then Delivered(faulty, at, a)
            else a + Delivered(faulty, at + a, b)
    decreases a
  {
    if a > 0 && !faulty(at) {
      DeliveredSplit(faulty, at + 1, a - 1, b);
    }
  }

  /** When the progress send throws, nothing is delivered and the response
      is the 500. */
  lemma RunProgressFails(faulty: nat -> bool, at: nat, outcome: SearchOutcome)
    requires faulty(at)
    ensures SearchRun(faulty, at, outcome) == Run([], 1, StatusCode(Status500InternalServerError, SearchErrorMessage))
  {
  }

  /** When the mediator throws after the progress report went out, only the
      progress report is delivered. */
  lemma RunMediatorFails(faulty: nat -> bool, at: nat, error: Fault)
    requires !faulty(at)
    ensures SearchRun(faulty, at, Failure(error))
         == Run([ReceiveSearchProgress(SearchStartedMessage)], 1, StatusCode(Status500InternalServerError, SearchErrorMessage))
  {
  }

  /** A successful search's events, as progress, results and completion. */
  lemma SuccessEvents(results: seq<VehicleSearchResultDto>)
    ensures SearchEvents(Success(results))
         == [ReceiveSearchProgress(SearchStartedMessage)] + (ResultEvents(results) + [ReceiveSearchComplete(|results|)])
    ensures |SearchEvents(Success(results))| == |results| + 2
  {
  }

  /** Sending a first event, a batch and a last event, when the first send
      succeeds: how many are delivered and which. */
  lemma SendThreeParts<T>(faulty: nat -> bool, at: nat, first: T, middle: seq<T>, last: T)
    requires !faulty(at)
    ensures var events := [first] + (middle + [last]);
            var k := Delivered(faulty, at + 1, |middle|);
            var sent := Delivered(faulty, at, |events|);
            (k < |middle| ==> sent == k + 1 && events[..sent] == [first] + middle[..k]) &&
            (k == |middle| && faulty(at + 1 + |middle|) ==> sent == k + 1 && events[..sent] == [first] + middle) &&
            (k == |middle| && !faulty(at + 1 + |middle|) ==> sent == k + 2 && events[..sent] == [first] + middle + [last])
  {
    var n := |middle|;
    DeliveredSplit(faulty, at, 1, n + 1);
    DeliveredSplit(faulty, at + 1, n, 1);
    PrefixThroughMiddle([first], middle, [last], Delivered(faulty, at + 1, n));
    AppendAssoc([first], middle, [last]);
  }

  /** A result send throws: the progress report and the listings before the
      failing one are delivered. */
  lemma RunResultFails(faulty: nat -> bool, at: nat, results: seq<VehicleSearchResultDto>)
    requires !faulty(at) && Delivered(faulty, at + 1, |results|) < |results|
    ensures var k := Delivered(faulty, at + 1, |results|);
            SearchRun(faulty, at, Success(results))
            == Run([ReceiveSearchProgress(SearchStartedMessage)] + ResultEvents(results)[..k], k + 2,
                   StatusCode(Status500InternalServerError, SearchErrorMessage))
  {
    SuccessEvents(results);
    SendThreeParts(faulty, at, ReceiveSearchProgress(SearchStartedMessage), ResultEvents(results),
                   ReceiveSearchComplete(|results|));
  }

  /** Every result is sent but the completion send throws: everything but
      the completion is delivered. */
  lemma RunCompleteFails(faulty: nat -> bool, at: nat, results: seq<VehicleSearchResultDto>)
    requires !faulty(at) && Delivered(faulty, at + 1, |results|) == |results|
    requires faulty(at + 1 + |results|)
    ensures SearchRun(faulty, at, Success(results))
            == Run([ReceiveSearchProgress(SearchStartedMessage)] + ResultEvents(results), |results| + 2,
                   StatusCode(Status500InternalServerError, SearchErrorMessage))
  {
    SuccessEvents(results);
    SendThreeParts(faulty, at, ReceiveSearchProgress(SearchStartedMessage), ResultEvents(results),
                   ReceiveSearchComplete(|results|));
  }

  /** No send throws: every event is delivered and the listings are
      returned. */
  lemma RunSucceeds(faulty: nat -> bool, at: nat, results: seq<VehicleSearchResultDto>)
    requires !faulty(at) && Delivered(faulty, at + 1, |results|) == |results|
    requires !faulty(at + 1 + |results|)
    ensures SearchRun(faulty, at, Success(results))
            == Run([ReceiveSearchProgress(SearchStartedMessage)] + ResultEvents(results) + [ReceiveSearchComplete(|results|)],
                   |results| + 2, Ok(results))
  {
    SuccessEvents(results);
    SendThreeParts(faulty, at, ReceiveSearchProgress(SearchStartedMessage), ResultEvents(results),
                   ReceiveSearchComplete(|results|));
  }

  lemma PrefixThroughMiddle<T>(a: seq<T>, b: seq<T>, c: seq<T>, j: nat)
    requires j <= |b|
    ensures (a + (b + c))[..|a| + j] == a + b[..j]
    ensures j == |b| ==> a + b[..j] == a + b
  {
  }

  /** Counts the result events of a sequence of events. */
  function CountResults(es: seq<HubEvent>): (n: nat)
    ensures n <= |es|
  {
    if es == [] then 0
    else CountResults(es[..|es| - 1]) + (if es[|es| - 1].ReceiveVehicleResult? then 1 else 0)
  }

  lemma {:induction false} CountResultEvents(results: seq<VehicleSearchResultDto>)
    ensures CountResults(ResultEvents(results)) == |results|
  {
    if results != [] {
      var front := results[..|results| - 1];
      CountResultEvents(front);
      assert ResultEvents(results)[..|results| - 1] == ResultEvents(front);
    }
  }

  /** The first event is the progress report, and it is the only one. */
  lemma ProgressFirstAndOnce(outcome: SearchOutcome)
    ensures SearchEvents(outcome)[0] == ReceiveSearchProgress(SearchStartedMessage)
    ensures forall i :: 0 < i < |SearchEvents(outcome)| ==> !SearchEvents(outcome)[i].ReceiveSearchProgress?
  {
  }

  /** When the mediator answers, one result event follows per listing in
      list order, and the last event is the completion, whose count is the
      number of result events. */
  lemma ResultsThenCompletion(results: seq<VehicleSearchResultDto>)
    ensures var es := SearchEvents(Success(results));
            |es| == |results| + 2 &&
            (forall i :: 0 <= i < |results| ==> es[1 + i] == ReceiveVehicleResult(results[i])) &&
            es[|es| - 1] == ReceiveSearchComplete(CountResults(es))
  {
    var es := SearchEvents(Success(results));
    var rs := ResultEvents(results);
    CountResultEvents(results);
    assert es[..|es| - 1] == [ReceiveSearchProgress(SearchStartedMessage)] + rs;
    CountResultsAfterProgress(rs);
  }

  lemma {:induction false} CountResultsAfterProgress(rs: seq<HubEvent>)
    ensures CountResults([ReceiveSearchProgress(SearchStartedMessage)] + rs) == CountResults(rs)
  {
    if rs != [] {
      var front := rs[..|rs| - 1];
      CountResultsAfterProgress(front);
      assert ([ReceiveSearchProgress(SearchStartedMessage)] + rs)[..|rs|]
          == [ReceiveSearchProgress(SearchStartedMessage)] + front;
    }
  }

  /** When the mediator throws, only the progress report is sent. */
  lemma MediatorFailureSendsOnlyProgress(error: Fault)
    ensures SearchEvents(Failure(error)) == [ReceiveSearchProgress(SearchStartedMessage)]
  {
  }

  /** When no send throws, every event is delivered. */
  lemma {:induction false} NoFaultDeliversAll(faulty: nat -> bool, at: nat, n: nat)
    requires forall j :: at <= j < at + n ==> !faulty(j)
    ensures Delivered(faulty, at, n) == n
    decreases n
  {
    if n > 0 {
      NoFaultDeliversAll(faulty, at + 1, n - 1);
    }
  }

  /** Whatever happens, the delivered events are the endpoint's events in
      order up to the first send that throws, and after that send nothing
      more is attempted. */
  lemma RunDeliversPrefix(faulty: nat -> bool, at: nat, outcome: SearchOutcome)
    ensures var run := SearchRun(faulty, at, outcome);
            var events := SearchEvents(outcome);
            var d := |run.delivered|;
            d <= |events| && run.delivered == events[..d] &&
            (forall j :: at <= j < at + d ==> !faulty(j)) &&
            (d < |events| ==> faulty(at + d) && run.sendAttempts == d + 1) &&
            (d == |events| ==> run.sendAttempts == d)
  {
    DeliveredSpec(faulty, at, |SearchEvents(outcome)|);
  }

  /** The response is Ok exactly when the mediator answers and no send
      throws; it then carries the mediator's list unchanged and every event
      was delivered. Otherwise it is the fixed 500. */
  lemma RunOkIff(faulty: nat -> bool, at: nat, outcome: SearchOutcome)
    ensures var run := SearchRun(faulty, at, outcome);
            var events := SearchEvents(outcome);
            (run.response.Ok? <==> outcome.Success? && forall j :: at <= j < at + |events| ==> !faulty(j)) &&
            (run.response.Ok? ==> run.response.results == outcome.value && run.delivered == events) &&
            (!run.response.Ok? ==> run.response == StatusCode(Status500InternalServerError, SearchErrorMessage))
  {
    var events := SearchEvents(outcome);
    DeliveredSpec(faulty, at, |events|);
    if forall j :: at <= j < at + |events| ==> !faulty(j) {
      NoFaultDeliversAll(faulty, at, |events|);
    }
  }
}
