/** The scaffolder's queue worker: it runs the task each message asks for, reports the outcome
    to Step Functions and only then deletes the message. Every await may throw. */
module TaskQueueWorker {
  import opened Common
  import Names = ApplicationName
  import Records = RepositoryRecord

  datatype Exception = Domain(code: string) | UnknownTask | Json | Canceled | Other

  /** A remote call completes, or throws, having taken effect or not. */
  datatype Await = Completes | Throws(effect: bool, exception: Exception)

  predicate Effective(a: Await) {
    a.Completes? || a.effect
  }

  /** A message body as the JSON reader sees it. */
  datatype Body = Absent | Malformed | NullJson | Carries(task: string, token: string)

  datatype Message = Message(receipt: nat, body: Body)

  datatype Dispatch = Output(json: string) | Raises(exception: Exception)

  /** What one delivery's awaits run into. */
  datatype Oracle = Oracle(dispatch: Dispatch, success: Await, successDelete: Await, failure: Await,
                           failureDelete: Await)

  /** A call made for a delivery, and whether it took effect. */
  datatype Event =
    | Succeeded(token: string, output: string, accepted: bool)
    | Failed(token: string, error: string, accepted: bool)
    | Deleted(receipt: nat, done: bool)

  /** The calls of one delivery, and the exception that left the handler, if any. */
  datatype Handling = Handling(events: seq<Event>, escaped: Option<Exception>)

  const MAX_ERROR := 256

  function Truncate(error: string): string {
    if |error| <= MAX_ERROR then error else error[..MAX_ERROR]
  }

  /** The error a caught exception is reported under; None if it is not reported. */
  function ErrorOf(e: Exception): Option<string> {
    match e
    case Domain(code) => Some(code)
    case UnknownTask => Some("UNKNOWN_TASK")
    case Json => Some("INVALID_TASK_PAYLOAD")
    case Canceled => None
    case Other => None
  }

  /** Whether the body yields a token to report to. */
  predicate Reportable(body: Body) {
    body.Carries? && !Records.Blank(body.token)
  }

  // ---- The rule, stated on the calls alone ----

  predicate Accepts(event: Event, token: string) {
    (event.Succeeded? || event.Failed?) && event.token == token && event.accepted
  }

  function Callbacks(events: seq<Event>): nat {
    if events == [] then 0 else Callbacks(events[1..]) + if events[0].Deleted? then 0 else 1
  }

  /** A delivery obeys the rule: without a token it makes no call; every deletion is its own
      and comes after Step Functions accepted an outcome for its token. */
  predicate Obeys(m: Message, events: seq<Event>) {
    && (!Reportable(m.body) ==> events == [])
    && forall i | 0 <= i < |events| && events[i].Deleted? ::
         events[i].receipt == m.receipt && exists j | 0 <= j < i :: Accepts(events[j], m.body.token)
  }

  /** The calls to AWS throw only cancellations and faults of their own. */
  predicate AwsThrows(o: Oracle) {
    forall a | a in {o.success, o.successDelete} && a.Throws? :: ErrorOf(a.exception).None?
  }

  // ---- What one delivery does ----

  /** The exceptions of the task, of the success report and of the deletion after it end up in
      the same handlers. */
  function Caught(events: seq<Event>, m: Message, e: Exception, o: Oracle): Handling
    requires m.body.Carries?
  {
    match ErrorOf(e)
    case None => Handling(events, None)
    case Some(error) =>
      var reported := events + [Failed(m.body.token, Truncate(error), Effective(o.failure))];
      if o.failure.Throws? then Handling(reported, None)
      else Handling(reported + [Deleted(m.receipt, Effective(o.failureDelete))],
                    if o.failureDelete.Throws? then Some(o.failureDelete.exception) else None)
  }

  function Handle(m: Message, o: Oracle): Handling {
    if m.body.Absent? then Handling([], Some(Other))
    else if !Reportable(m.body) then Handling([], None)
    else match o.dispatch
      case Raises(e) => Caught([], m, e, o)
      case Output(json) =>
        var reported := [Succeeded(m.body.token, json, Effective(o.success))];
        if o.success.Throws? then Caught(reported, m, o.success.exception, o)
        else
          var deleted := reported + [Deleted(m.receipt, Effective(o.successDelete))];
          if o.successDelete.Throws? then Caught(deleted, m, o.successDelete.exception, o)
          else Handling(deleted, None)
  }

  /** Whatever the awaits do, a delivery obeys the rule; it attempts two callbacks only if a
      call to AWS throws an exception the worker takes for the task's own; and what leaves the
      handler is the fault of deleting after an accepted failure report, or a null body. */
  lemma HandleObeys(m: Message, o: Oracle)
    ensures Obeys(m, Handle(m, o).events)
    ensures Callbacks(Handle(m, o).events) <= 2
    ensures Callbacks(Handle(m, o).events) == 2 <==>
      Reportable(m.body) && o.dispatch.Output? &&
        if o.success.Throws? then ErrorOf(o.success.exception).Some?
        else o.successDelete.Throws? && ErrorOf(o.successDelete.exception).Some?
    ensures AwsThrows(o) ==> Callbacks(Handle(m, o).events) <= 1
    ensures Handle(m, o).escaped.Some? <==>
      m.body.Absent? ||
      (var events := Handle(m, o).events;
       |events| >= 2 && events[|events| - 1].Deleted? && events[|events| - 2].Failed? && events[|events| - 2].accepted
       && o.failureDelete.Throws?)
  {
    if Reportable(m.body) {
      var token := m.body.token;
      var ok := Succeeded(token, if o.dispatch.Output? then o.dispatch.json else "", Effective(o.success));
      var gone := Deleted(m.receipt, Effective(o.successDelete));
      CallbacksOf([]);
      CallbacksOf([ok]);
      CallbacksOf([ok, gone]);
      forall events, e
        ensures Callbacks(Caught(events, m, e, o).events) == Callbacks(events) + if ErrorOf(e).Some? then 1 else 0
      {
        CaughtCallbacks(events, m, e, o);
      }
      if o.dispatch.Output? && o.success.Completes? {
        assert Accepts(Handle(m, o).events[0], token);
      }
      if o.dispatch.Raises? {
        CaughtObeys([], m, o.dispatch.exception, o);
      } else if o.success.Throws? {
        CaughtObeys([ok], m, o.success.exception, o);
      } else if o.successDelete.Throws? {
        assert Accepts([ok, gone][0], token);
        CaughtObeys([ok, gone], m, o.successDelete.exception, o);
      }
    }
  }

  /** The exception that the task, its success report or the deletion after it threw, if any. */
  function Thrown(o: Oracle): Option<Exception> {
    match o.dispatch
    case Raises(e) => Some(e)
    case Output(_) =>
      if o.success.Throws? then Some(o.success.exception)
      else if o.successDelete.Throws? then Some(o.successDelete.exception) else None
  }

  /** The calls of a delivery begin as they should: a task that returns has its output reported
      first, and its message deleted once the report was accepted. */
  predicate ReportsOutput(m: Message, o: Oracle, events: seq<Event>)
    requires m.body.Carries? && o.dispatch.Output?
  {
    && 1 <= |events| && events[0] == Succeeded(m.body.token, o.dispatch.json, o.success.Completes? || o.success.effect)
    && (o.success.Completes? ==>
          && 2 <= |events|
          && events[1] == Deleted(m.receipt, o.successDelete.Completes? || o.successDelete.effect))
  }

  /** How many calls a delivery makes before anything is caught. */
  function Before(o: Oracle): nat {
    if o.dispatch.Raises? then 0 else if o.success.Throws? then 1 else 2
  }

  /** They end as they should: with nothing thrown there is no other call; a domain exception, an
      unknown task and a malformed payload are reported, each under its name, and the message is
      deleted once that report was accepted; any other exception is left alone. */
  predicate EndsRight(m: Message, o: Oracle, events: seq<Event>, escaped: Option<Exception>)
    requires m.body.Carries?
  {
    var n := Before(o);
    match Thrown(o)
    case None => |events| == n && escaped == None
    case Some(Canceled) => |events| == n && escaped == None
    case Some(Other) => |events| == n && escaped == None
    case Some(Domain(code)) => FailsAs(m, o, events, escaped, code)
    case Some(UnknownTask) => FailsAs(m, o, events, escaped, "UNKNOWN_TASK")
    case Some(Json) => FailsAs(m, o, events, escaped, "INVALID_TASK_PAYLOAD")
  }

  predicate FailsAs(m: Message, o: Oracle, events: seq<Event>, escaped: Option<Exception>, error: string)
    requires m.body.Carries?
  {
    var n := Before(o);
    && n < |events| && events[n].Failed? && events[n].token == m.body.token
    && events[n].error == (if |error| <= 256 then error else error[..256])
    && events[n].accepted == (o.failure.Completes? || o.failure.effect)
    && if o.failure.Throws? then |events| == n + 1 && escaped == None
       else
         && |events| == n + 2 && events[n + 1] ==
           Deleted(m.receipt, o.failureDelete.Completes? || o.failureDelete.effect)
         && escaped == if o.failureDelete.Throws? then Some(o.failureDelete.exception) else None
  }

  /** A delivery makes exactly the calls it should. */
  predicate Reports(m: Message, o: Oracle, events: seq<Event>, escaped: Option<Exception>) {
    if m.body.Carries? && (exists c <- m.body.token :: !Names.IsWhiteSpace(c)) then
      (o.dispatch.Output? ==> ReportsOutput(m, o, events)) && EndsRight(m, o, events, escaped)
    else events == [] && escaped == if m.body == Absent then Some(Other) else None
  }

  lemma CaughtEndsRight(m: Message, o: Oracle, events: seq<Event>)
    requires m.body.Carries? && Thrown(o).Some? && |events| == Before(o)
    ensures var h := Caught(events, m, Thrown(o).value, o);
      events <= h.events && EndsRight(m, o, h.events, h.escaped)
  {
  }

  lemma HandleReports(m: Message, o: Oracle)
    ensures Reports(m, o, Handle(m, o).events, Handle(m, o).escaped)
  {
    if m.body.Carries? {
      Records.BlankIff(m.body.token);
    }
    if Reportable(m.body) && Thrown(o).Some? {
      var ok := Succeeded(m.body.token, if o.dispatch.Output? then o.dispatch.json else "", Effective(o.success));
      CaughtEndsRight(m, o, if o.dispatch.Raises? then [] else if o.success.Throws? then [ok]
                            else [ok] + [Deleted(m.receipt, Effective(o.successDelete))]);
    }
  }

  /** So a task that returns, with every call to AWS completing, is reported with its output and
      its message deleted, and nothing else happens. */
  lemma SuccessIsReported(m: Message, o: Oracle)
    requires Reportable(m.body) && o.dispatch.Output? && o.success.Completes? && o.successDelete.Completes?
    ensures Handle(m, o) ==
      Handling([Succeeded(m.body.token, o.dispatch.json, true), Deleted(m.receipt, true)], None)
  {
    HandleReports(m, o);
    var events := Handle(m, o).events;
    assert events == [events[0], events[1]];
  }

  lemma CallbacksOf(events: seq<Event>)
    requires |events| <= 2
    ensures Callbacks(events) ==
      (if |events| > 0 && !events[0].Deleted? then 1 else 0) + (if |events| > 1 && !events[1].Deleted? then 1 else 0)
  {
    if |events| > 1 {
      assert events[1..] == [events[1]];
    }
  }

  lemma {:induction false} CallbacksConcat(a: seq<Event>, b: seq<Event>)
    ensures Callbacks(a + b) == Callbacks(a) + Callbacks(b)
  {
    if a == [] {
      assert a + b == b;
    } else {
      assert (a + b)[1..] == a[1..] + b;
      CallbacksConcat(a[1..], b);
    }
  }

  lemma CaughtCallbacks(events: seq<Event>, m: Message, e: Exception, o: Oracle)
    requires m.body.Carries?
    ensures Callbacks(Caught(events, m, e, o).events) == Callbacks(events) + if ErrorOf(e).Some? then 1 else 0
  {
    if ErrorOf(e).Some? {
      var failed := Failed(m.body.token, Truncate(ErrorOf(e).value), Effective(o.failure));
      var gone := Deleted(m.receipt, Effective(o.failureDelete));
      CallbacksConcat(events, [failed]);
      CallbacksConcat(events + [failed], [gone]);
      CallbacksOf([failed]);
      CallbacksOf([gone]);
    }
  }

  lemma CaughtObeys(events: seq<Event>, m: Message, e: Exception, o: Oracle)
    requires Reportable(m.body) && Obeys(m, events)
    ensures Obeys(m, Caught(events, m, e, o).events)
  {
    var all := Caught(events, m, e, o).events;
    assert forall i | 0 <= i < |events| :: all[i] == events[i];
    forall i | 0 <= i < |all| && all[i].Deleted?
      ensures all[i].receipt == m.receipt && exists j | 0 <= j < i :: Accepts(all[j], m.body.token)
    {
      if i < |events| {
        var j :| 0 <= j < i && Accepts(events[j], m.body.token);
        assert Accepts(all[j], m.body.token);
      } else {
        assert Accepts(all[i - 1], m.body.token);
      }
    }
  }

  // ---- The worker ----

  /** One message of a batch: whether the worker is stopped before it, and its awaits. */
  datatype Arrival = Arrival(message: Message, stopped: bool, oracle: Oracle)

  /** One receive: a batch, a queue fault that is retried, the stop signal, or another exception. */
  datatype Poll = Batch(arrivals: seq<Arrival>) | QueueFault | Stopped | Broken

  datatype Delivery = Delivery(message: Message, events: seq<Event>)

  function Handled(a: Arrival): Delivery {
    Delivery(a.message, Handle(a.message, a.oracle).events)
  }

  /** How a stretch of the run ended: at its last message, by the stop signal, or by an exception. */
  datatype Ending = Ongoing | Halted | Escaped(exception: Exception)

  datatype Progress = Progress(deliveries: seq<Delivery>, ending: Ending)

  function After(deliveries: seq<Delivery>, p: Progress): Progress {
    p.(deliveries := deliveries + p.deliveries)
  }

  /** The messages of a batch one by one, up to the stop signal or an exception. */
  function BatchOf(arrivals: seq<Arrival>): Progress {
    if arrivals == [] then Progress([], Ongoing)
    else if arrivals[0].stopped then Progress([], Halted)
    else match Handle(arrivals[0].message, arrivals[0].oracle).escaped
      case Some(e) => Progress([Handled(arrivals[0])], Escaped(e))
      case None => After([Handled(arrivals[0])], BatchOf(arrivals[1..]))
  }

  function PollOf(poll: Poll): Progress {
    match poll
    case Batch(arrivals) => BatchOf(arrivals)
    case QueueFault => Progress([], Ongoing)
    case Stopped => Progress([], Halted)
    case Broken => Progress([], Escaped(Other))
  }

  function RunOf(polls: seq<Poll>): Progress {
    if polls == [] then Progress([], Ongoing)
    else
      var first := PollOf(polls[0]);
      if first.ending.Ongoing? then After(first.deliveries, RunOf(polls[1..])) else first
  }

  // ---- What every run of the worker keeps ----

  function Received(poll: Poll): seq<Arrival> {
    match poll
    case Batch(arrivals) => arrivals
    case _ => []
  }

  /** All the messages received, in order. */
  function Arrivals(polls: seq<Poll>): seq<Arrival> {
    if polls == [] then [] else Received(polls[0]) + Arrivals(polls[1..])
  }

  function HandledAll(arrivals: seq<Arrival>): seq<Delivery> {
    seq(|arrivals|, i requires 0 <= i < |arrivals| => Handled(arrivals[i]))
  }

  /** The progress handled a prefix of the messages, the last of them being the one whose
      exception escaped, and nothing short of all of them if nothing ended it. */
  predicate HandlesInOrder(p: Progress, arrivals: seq<Arrival>) {
    var n := |p.deliveries|;
    && n <= |arrivals| && p.deliveries == HandledAll(arrivals[..n])
    && (p.ending.Ongoing? ==> n == |arrivals|)
    && forall i | 0 <= i < n :: !arrivals[i].stopped
  }

  /** What escaped is what the last delivery let out. */
  predicate EscapesLast(p: Progress, arrivals: seq<Arrival>) {
    var n := |p.deliveries|;
    p.ending.Escaped? ==>
      0 < n <= |arrivals| && Handle(arrivals[n - 1].message, arrivals[n - 1].oracle).escaped == Some(p.ending.exception)
  }

  lemma {:induction false} BatchInOrder(arrivals: seq<Arrival>)
    ensures HandlesInOrder(BatchOf(arrivals), arrivals) && EscapesLast(BatchOf(arrivals), arrivals)
  {
    if arrivals != [] && !arrivals[0].stopped {
      BatchInOrder(arrivals[1..]);
      var n := |BatchOf(arrivals).deliveries|;
      assert n > 0 ==> arrivals[..n][1..] == arrivals[1..][..n - 1];
    }
  }

  lemma InOrderConcat(first: Progress, arrivals: seq<Arrival>, later: Progress, rest: seq<Arrival>)
    requires HandlesInOrder(first, arrivals) && HandlesInOrder(later, rest)
    ensures var all := if first.ending.Ongoing? then After(first.deliveries, later) else first;
      && HandlesInOrder(all, arrivals + rest)
      && (EscapesLast(if first.ending.Ongoing? then later else first, if first.ending.Ongoing? then rest else arrivals)
          ==> EscapesLast(all, arrivals + rest))
  {
    var n := |first.deliveries|;
    if first.ending.Ongoing? {
      var m := n + |later.deliveries|;
      assert (arrivals + rest)[..m] == arrivals + rest[..m - n];
      assert HandledAll(arrivals + rest[..m - n]) == HandledAll(arrivals) + HandledAll(rest[..m - n]);
    } else {
      assert (arrivals + rest)[..n] == arrivals[..n];
    }
  }

  /** A run handles the received messages in order, without leaving one out, until it is
      stopped or an exception escapes; and what escapes is a broken receive's exception or what
      the last delivery let out. */
  lemma {:induction false} RunInOrder(polls: seq<Poll>)
    ensures HandlesInOrder(RunOf(polls), Arrivals(polls))
    ensures Broken !in polls ==> EscapesLast(RunOf(polls), Arrivals(polls))
  {
    if polls != [] {
      assert polls == [polls[0]] + polls[1..];
      RunInOrder(polls[1..]);
      if polls[0].Batch? {
        BatchInOrder(polls[0].arrivals);
      }
      InOrderConcat(PollOf(polls[0]), Received(polls[0]), RunOf(polls[1..]), Arrivals(polls[1..]));
    }
  }

  /** So every delivery of a run obeys the deletion rule, and attempts at most one callback as
      long as the calls to AWS throw nothing the worker takes for the task's own. */
  lemma RunObeys(polls: seq<Poll>, i: nat)
    requires i < |RunOf(polls).deliveries|
    ensures i < |Arrivals(polls)| && RunOf(polls).deliveries[i] == Handled(Arrivals(polls)[i])
    ensures Obeys(RunOf(polls).deliveries[i].message, RunOf(polls).deliveries[i].events)
    ensures exists escaped ::
      Reports(RunOf(polls).deliveries[i].message, Arrivals(polls)[i].oracle, RunOf(polls).deliveries[i].events, escaped)
    ensures AwsThrows(Arrivals(polls)[i].oracle) ==> Callbacks(RunOf(polls).deliveries[i].events) <= 1
  {
    RunInOrder(polls);
    HandleObeys(Arrivals(polls)[i].message, Arrivals(polls)[i].oracle);
    HandleReports(Arrivals(polls)[i].message, Arrivals(polls)[i].oracle);
  }

  /** The worker goes on after the receive: a queue fault is passed over, and a batch is handled to
      its end with no stop signal and nothing escaping. */
  predicate Passes(poll: Poll) {
    match poll
    case QueueFault => true
    case Batch(arrivals) => forall a <- arrivals :: PassesOne(a)
    case Stopped => false
    case Broken => false
  }

  predicate PassesOne(a: Arrival) {
    !a.stopped && Handle(a.message, a.oracle).escaped.None?
  }

  /** The first message of a batch that the worker does not get past has the stop signal before it. */
  predicate StopsIn(arrivals: seq<Arrival>) {
    exists n | 0 <= n < |arrivals| :: arrivals[n].stopped && forall i | 0 <= i < n :: PassesOne(arrivals[i])
  }

  lemma StopsInCons(first: Arrival, rest: seq<Arrival>)
    ensures StopsIn([first] + rest) <==> first.stopped || (PassesOne(first) && StopsIn(rest))
  {
    var all := [first] + rest;
    if first.stopped {
      assert all[0].stopped;
    }
    if PassesOne(first) && StopsIn(rest) {
      var n :| 0 <= n < |rest| && rest[n].stopped && forall i | 0 <= i < n :: PassesOne(rest[i]);
      assert all[n + 1].stopped && forall i | 0 <= i < n + 1 :: PassesOne(all[i]);
    }
    if StopsIn(all) && !first.stopped {
      var n :| 0 <= n < |all| && all[n].stopped && forall i | 0 <= i < n :: PassesOne(all[i]);
      assert PassesOne(all[0]) && rest[n - 1].stopped;
      forall i | 0 <= i < n - 1 ensures PassesOne(rest[i]) {
        assert rest[i] == all[i + 1];
      }
    }
  }

  lemma {:induction false} BatchEnds(arrivals: seq<Arrival>)
    ensures BatchOf(arrivals).ending.Ongoing? <==> forall a <- arrivals :: PassesOne(a)
    ensures BatchOf(arrivals).ending.Halted? <==> StopsIn(arrivals)
  {
    if arrivals != [] {
      var rest := arrivals[1..];
      BatchEnds(rest);
      assert arrivals == [arrivals[0]] + rest;
      assert arrivals[0] in arrivals && forall a <- rest :: a in arrivals;
      StopsInCons(arrivals[0], rest);
    }
  }

  /** The first receive the worker does not get past is the stop signal, or a batch it stops in. */
  predicate StopsAt(polls: seq<Poll>, k: nat) {
    && k < |polls| && (forall i | 0 <= i < k :: Passes(polls[i]))
    && (polls[k].Stopped? || (polls[k].Batch? && StopsIn(polls[k].arrivals)))
  }

  lemma PollEnds(poll: Poll)
    ensures PollOf(poll).ending.Ongoing? <==> Passes(poll)
    ensures PollOf(poll).ending.Halted? <==> poll.Stopped? || (poll.Batch? && StopsIn(poll.arrivals))
  {
    if poll.Batch? {
      BatchEnds(poll.arrivals);
    }
  }

  predicate Stops(polls: seq<Poll>) {
    exists k | 0 <= k < |polls| :: StopsAt(polls, k)
  }

  lemma StopsCons(first: Poll, rest: seq<Poll>)
    ensures Stops([first] + rest) <==>
      first.Stopped? || (first.Batch? && StopsIn(first.arrivals)) || (Passes(first) && Stops(rest))
  {
    var all := [first] + rest;
    if first.Stopped? || (first.Batch? && StopsIn(first.arrivals)) {
      assert StopsAt(all, 0);
    } else if Passes(first) && Stops(rest) {
      var k :| 0 <= k < |rest| && StopsAt(rest, k);
      assert StopsAt(all, k + 1);
    } else if Stops(all) {
      var k :| 0 <= k < |all| && StopsAt(all, k);
      assert k > 0 && Passes(all[0]);
      forall i | 0 <= i < k - 1 ensures Passes(rest[i]) {
        assert rest[i] == all[i + 1];
      }
      assert StopsAt(rest, k - 1);
    }
  }

  /** A run goes on exactly as long as the worker gets past every receive, queue faults included,
      and halts exactly at a stop signal, between receives or between messages. */
  lemma {:induction false} RunEnds(polls: seq<Poll>)
    ensures RunOf(polls).ending.Ongoing? <==> forall poll <- polls :: Passes(poll)
    ensures RunOf(polls).ending.Halted? <==> Stops(polls)
  {
    if polls != [] {
      var rest := polls[1..];
      PollEnds(polls[0]);
      RunEnds(rest);
      assert polls == [polls[0]] + rest;
      StopsCons(polls[0], rest);
    }
  }

  /** A queue fault changes nothing. */
  lemma {:induction false} QueueFaultIsPassedOver(before: seq<Poll>, after: seq<Poll>)
    ensures RunOf(before + [QueueFault] + after) == RunOf(before + after)
  {
    if before == [] {
      assert before + [QueueFault] + after == [QueueFault] + after && before + after == after;
      assert ([QueueFault] + after)[1..] == after;
      assert [] + RunOf(after).deliveries == RunOf(after).deliveries;
    } else {
      assert (before + [QueueFault] + after)[1..] == before[1..] + [QueueFault] + after;
      assert (before + after)[1..] == before[1..] + after;
      QueueFaultIsPassedOver(before[1..], after);
    }
  }

  /** A failure is reported under the whole error, or its first characters if it is too long;
      a deletion comes last and only after the report was accepted; and nothing but the
      deletion's own fault escapes. */
  predicate ReportsFailure(h: Handling, events: seq<Event>, m: Message, error: string, o: Oracle)
    requires m.body.Carries?
  {
    && events < h.events
    && var report, after := h.events[|events|], h.events[|events| + 1..];
      && report.Failed? && report.token == m.body.token && report.accepted == Effective(o.failure)
      && report.error <= error && |report.error| <= MAX_ERROR && (report.error == error || |report.error| == MAX_ERROR)
      && (after == [] <==> o.failure.Throws?)
      && (after != [] ==> Accepts(report, m.body.token) && after == [Deleted(m.receipt, Effective(o.failureDelete))])
      && h.escaped == if after != [] && o.failureDelete.Throws? then Some(o.failureDelete.exception) else None
  }

  /** That leaves nothing open. */
  lemma ReportIsCaught(h: Handling, events: seq<Event>, m: Message, e: Exception, o: Oracle)
    requires m.body.Carries? && ErrorOf(e).Some? && ReportsFailure(h, events, m, ErrorOf(e).value, o)
    ensures h == Caught(events, m, e, o)
  {
    var error, report, after := ErrorOf(e).value, h.events[|events|], h.events[|events| + 1..];
    assert h.events == events + [report] + after;
    assert report.error == Truncate(error) by {
      assert report.error == error[..|report.error|] && error == error[..|error|];
    }
  }

  class Worker {
    var queueUrl: string
    var deliveries: seq<Delivery>

    constructor ()
      ensures queueUrl == "" && deliveries == []
    {
      queueUrl, deliveries := "", [];
    }

    method SendFailure(m: Message, error: string, o: Oracle, events: seq<Event>) returns (h: Handling)
      requires m.body.Carries?
      ensures ReportsFailure(h, events, m, error, o)
    {
      var report := if |error| <= MAX_ERROR then error else error[..MAX_ERROR];
      var log := events + [Failed(m.body.token, report, Effective(o.failure))];
      if o.failure.Throws? {
        return Handling(log, None);
      }
      log := log + [Deleted(m.receipt, Effective(o.failureDelete))];
      if o.failureDelete.Throws? {
        return Handling(log, Some(o.failureDelete.exception));
      }
      return Handling(log, None);
    }

    method HandleAsync(m: Message, o: Oracle) returns (escaped: Option<Exception>)
      modifies this`deliveries
      ensures deliveries == old(deliveries) + [Delivery(m, Handle(m, o).events)]
      ensures escaped == Handle(m, o).escaped
      ensures |deliveries| == |old(deliveries)| + 1 && deliveries[..|old(deliveries)|] == old(deliveries)
      ensures var d := deliveries[|old(deliveries)|]; d.message == m && Reports(m, o, d.events, escaped)
    {
      HandleReports(m, o);
      var h := Handling([], None);
      match m.body {
        case Absent => h := Handling([], Some(Other));
        case Malformed =>
        case NullJson =>
        case Carries(task, token) =>
          if !Records.Blank(token) {
            h := RunTask(m, o);
          }
      }
      deliveries := deliveries + [Delivery(m, h.events)];
      escaped := h.escaped;
    }

    method RunTask(m: Message, o: Oracle) returns (h: Handling)
      requires Reportable(m.body)
      ensures h == Handle(m, o) && Reports(m, o, h.events, h.escaped)
    {
      HandleReports(m, o);
      var events: seq<Event> := [];
      var thrown: Option<Exception> := None;
      if o.dispatch.Raises? {
        thrown := Some(o.dispatch.exception);
      } else {
        events := [Succeeded(m.body.token, o.dispatch.json, Effective(o.success))];
        if o.success.Throws? {
          thrown := Some(o.success.exception);
        } else {
          events := events + [Deleted(m.receipt, Effective(o.successDelete))];
          if o.successDelete.Throws? {
            thrown := Some(o.successDelete.exception);
          }
        }
      }
      h := Handling(events, None);
      if thrown.Some? {
        match thrown.value {
          case Domain(code) =>
            h := SendFailure(m, code, o, events);
            ReportIsCaught(h, events, m, thrown.value, o);
          case UnknownTask =>
            h := SendFailure(m, "UNKNOWN_TASK", o, events);
            ReportIsCaught(h, events, m, thrown.value, o);
          case Json =>
            h := SendFailure(m, "INVALID_TASK_PAYLOAD", o, events);
            ReportIsCaught(h, events, m, thrown.value, o);
          case Canceled =>
          case Other =>
        }
      }
    }

    /** Resolving the queue is retried until it works or the worker is stopped. */
    method ResolveQueueUrl(attempts: seq<Option<string>>) returns (resolved: bool)
      modifies this`queueUrl
      ensures resolved <==> exists a <- attempts :: a.Some?
      ensures !resolved ==> queueUrl == ""
      ensures forall i | 0 <= i < |attempts| && attempts[i].Some? && (forall j | 0 <= j < i :: attempts[j].None?) ::
        queueUrl == attempts[i].value
    {
      queueUrl := "";
      for i := 0 to |attempts|
        invariant queueUrl == "" && forall j | 0 <= j < i :: attempts[j].None?
      {
        assert attempts[i] in attempts;
        if attempts[i].Some? {
          queueUrl := attempts[i].value;
          return true;
        }
      }
      return false;
    }

    method HandleBatch(arrivals: seq<Arrival>) returns (ending: Ending)
      modifies this`deliveries
      ensures Progress(deliveries, ending) == After(old(deliveries), BatchOf(arrivals))
    {
      for k := 0 to |arrivals|
        invariant After(deliveries, BatchOf(arrivals[k..])) == After(old(deliveries), BatchOf(arrivals))
      {
        ghost var before := deliveries;
        AfterAfter(before, [Handled(arrivals[k])], BatchOf(arrivals[k + 1..]));
        assert arrivals[k..][1..] == arrivals[k + 1..];
        if arrivals[k].stopped {
          return Halted;
        }
        var escaped := HandleAsync(arrivals[k].message, arrivals[k].oracle);
        if escaped.Some? {
          return Escaped(escaped.value);
        }
      }
      return Ongoing;
    }

    /** The whole run, over any sequence of receives, if the queue was ever resolved. */
    method ExecuteAsync(attempts: seq<Option<string>>, polls: seq<Poll>) returns (ending: Ending)
      modifies this
      ensures Progress(deliveries, ending) ==
        if exists a <- attempts :: a.Some? then After(old(deliveries), RunOf(polls))
        else Progress(old(deliveries), Halted)
    {
      var resolved := ResolveQueueUrl(attempts);
      if !resolved {
        return Halted;
      }
      for k := 0 to |polls|
        invariant After(deliveries, RunOf(polls[k..])) == After(old(deliveries), RunOf(polls))
      {
        ghost var before := deliveries;
        assert polls[k..][1..] == polls[k + 1..];
        AfterAfter(before, PollOf(polls[k]).deliveries, RunOf(polls[k + 1..]));
        match polls[k] {
          case QueueFault =>
          case Stopped => return Halted;
          case Broken => return Escaped(Other);
          case Batch(arrivals) =>
            ending := HandleBatch(arrivals);
            if !ending.Ongoing? {
              return;
            }
        }
      }
      return Ongoing;
    }
  }

  lemma AfterAfter(a: seq<Delivery>, b: seq<Delivery>, p: Progress)
    ensures After(a, After(b, p)) == After(a + b, p)
  {
    assert a + (b + p.deliveries) == (a + b) + p.deliveries;
  }
}
