/** The provisioner's two consume loops over SQS and Kafka, and the counters they keep. */
module ConsumeLoops {
  import opened Common
  import Names = ApplicationName

  /** The fields of a decoded request that the split depends on. */
  datatype Request = Request(requestId: string, applicationName: string, template: string)

  /** A message: its body, if it decodes, and whether acknowledging it will succeed. */
  datatype Message = Message(id: nat, body: Option<Request>, acknowledges: bool)

  /** The text has more in it than white space. */
  predicate Filled(text: string) {
    exists c <- text :: !Names.IsWhiteSpace(c)
  }

  /** Dispatch understands a message that decodes and has all the fields filled. */
  predicate Understood(m: Message) {
    && m.body.Some? && Filled(m.body.value.requestId) && Filled(m.body.value.applicationName)
    && Filled(m.body.value.template)
  }

  datatype Parsed = Decoded(request: Request) | NotJson | Missing(fields: seq<string>)

  /** The fields that are blank, collected one after another. */
  method Parse(body: Option<Request>) returns (parsed: Parsed)
    ensures parsed.NotJson? <==> body.None?
    ensures parsed.Decoded? <==>
      body.Some? && Filled(body.value.requestId) && Filled(body.value.applicationName) && Filled(body.value.template)
    ensures parsed.Decoded? ==> parsed.request == body.value
    ensures parsed.Missing? ==>
      var a := if Filled(body.value.requestId) then [] else ["request_id"];
      var b := if Filled(body.value.applicationName) then [] else ["application.name"];
      var c := if Filled(body.value.template) then [] else ["application.template"];
      parsed.fields == a + b + c
  {
    if body.None? {
      return NotJson;
    }
    var request := body.value;
    Names.BlankTrimsAway(request.requestId);
    Names.BlankTrimsAway(request.applicationName);
    Names.BlankTrimsAway(request.template);
    var missing: seq<string> := [];
    if Names.Trim(request.requestId) == "" {
      missing := missing + ["request_id"];
    }
    if Names.Trim(request.applicationName) == "" {
      missing := missing + ["application.name"];
    }
    if Names.Trim(request.template) == "" {
      missing := missing + ["application.template"];
    }
    return if |missing| > 0 then Missing(missing) else Decoded(request);
  }

  method Dispatch(m: Message) returns (ok: bool)
    ensures ok <==>
      && m.body.Some? && Filled(m.body.value.requestId) && Filled(m.body.value.applicationName)
      && Filled(m.body.value.template)
    ensures ok <==> Understood(m)
  {
    var parsed := Parse(m.body);
    return parsed.Decoded?;
  }

  datatype Event = Dispatched(message: Message) | Acknowledged(message: Message)

  datatype Class = Processed | Failed

  datatype Loop = Sqs | Kafka

  function ClassOf(l: Loop, m: Message): Class {
    if m.acknowledges && (l.Sqs? ==> Understood(m)) then Processed else Failed
  }

  /** The loops count a message alike exactly when it is understood or its acknowledgement
      fails: only Kafka counts a message it could not understand as processed. */
  lemma LoopsClassifyAlike(m: Message)
    ensures ClassOf(Sqs, m) == ClassOf(Kafka, m) <==> Understood(m) || !m.acknowledges
  {
  }

  function SqsEvents(messages: seq<Message>): seq<Event> {
    if messages == [] then []
    else var m := messages[|messages| - 1];
      SqsEvents(messages[..|messages| - 1]) + [Dispatched(m)] + if Understood(m) then [Acknowledged(m)] else []
  }

  function KafkaEvents(messages: seq<Message>): seq<Event> {
    if messages == [] then []
    else var m := messages[|messages| - 1];
      KafkaEvents(messages[..|messages| - 1]) + [Dispatched(m)] + [Acknowledged(m)]
  }

  function Count(messages: seq<Message>, l: Loop, c: Class): nat {
    if messages == [] then 0
    else Count(messages[..|messages| - 1], l, c) + if ClassOf(l, messages[|messages| - 1]) == c then 1 else 0
  }

  predicate SameClass(messages: seq<Message>) {
    forall m <- messages :: Understood(m) || !m.acknowledges
  }

  /** Over a whole run Kafka never counts fewer messages as processed than SQS, and the two
      report the same number exactly when they class every message alike. */
  lemma {:induction false} LoopsCountAlike(messages: seq<Message>)
    ensures Count(messages, Sqs, Processed) <= Count(messages, Kafka, Processed)
    ensures Count(messages, Sqs, Processed) == Count(messages, Kafka, Processed) <==> SameClass(messages)
    ensures Count(messages, Sqs, Processed) + Count(messages, Sqs, Failed)
      == Count(messages, Kafka, Processed) + Count(messages, Kafka, Failed) == |messages|
  {
    if messages != [] {
      var init, m := messages[..|messages| - 1], messages[|messages| - 1];
      LoopsCountAlike(init);
      LoopsClassifyAlike(m);
      assert messages == init + [m];
    }
  }

  function EventsOf(l: Loop, messages: seq<Message>): seq<Event> {
    if l.Sqs? then SqsEvents(messages) else KafkaEvents(messages)
  }

  lemma Snoc(messages: seq<Message>, m: Message)
    ensures (messages + [m])[..|messages|] == messages
  {
  }

  /** SQS deletes only what Dispatch has just accepted. */
  lemma {:induction false} SqsDeletesOnlyAccepted(messages: seq<Message>, i: nat)
    requires i < |SqsEvents(messages)| && SqsEvents(messages)[i].Acknowledged?
    ensures var events := SqsEvents(messages);
      i > 0 && events[i - 1] == Dispatched(events[i].message) && Understood(events[i].message)
  {
    var init := messages[..|messages| - 1];
    if i < |SqsEvents(init)| {
      SqsDeletesOnlyAccepted(init, i);
    }
  }

  /** Kafka commits only what has just been given to Dispatch, understood or not. */
  lemma {:induction false} KafkaCommitsOnlyDispatched(messages: seq<Message>, i: nat)
    requires i < |KafkaEvents(messages)| && KafkaEvents(messages)[i].Acknowledged?
    ensures i > 0 && KafkaEvents(messages)[i - 1] == Dispatched(KafkaEvents(messages)[i].message)
  {
    var init := messages[..|messages| - 1];
    if i < |KafkaEvents(init)| {
      KafkaCommitsOnlyDispatched(init, i);
    }
  }

  // ---- What is called, read off the events alone ----

  /** The messages given to Dispatch, in order. */
  function Dispatches(events: seq<Event>): seq<Message> {
    if events == [] then []
    else
      var last := events[|events| - 1];
      Dispatches(events[..|events| - 1]) + if last.Dispatched? then [last.message] else []
  }

  /** The messages acknowledged, in order. */
  function Acknowledgements(events: seq<Event>): seq<Message> {
    if events == [] then []
    else
      var last := events[|events| - 1];
      Acknowledgements(events[..|events| - 1]) + if last.Acknowledged? then [last.message] else []
  }

  /** The messages a loop acknowledges: SQS those it understands, Kafka all. */
  predicate Due(l: Loop, m: Message) {
    match l
    case Sqs => Understood(m)
    case Kafka => true
  }

  function DueOf(l: Loop, messages: seq<Message>): seq<Message> {
    if messages == [] then []
    else
      var last := messages[|messages| - 1];
      DueOf(l, messages[..|messages| - 1]) + if Due(l, last) then [last] else []
  }

  /** The messages whose acknowledgement succeeds. */
  function Succeeding(messages: seq<Message>): nat {
    if messages == [] then 0
    else Succeeding(messages[..|messages| - 1]) + if messages[|messages| - 1].acknowledges then 1 else 0
  }

  /** A dispatch of a message that is due is followed at once by its own acknowledgement, any other
      one by none. */
  predicate FollowsUpAt(l: Loop, events: seq<Event>, i: nat)
    requires i < |events|
  {
    events[i].Dispatched? ==>
      && (Due(l, events[i].message) ==> i + 1 < |events| && events[i + 1] == Acknowledged(events[i].message))
      && (!Due(l, events[i].message) && i + 1 < |events| ==> events[i + 1].Dispatched?)
  }

  predicate FollowsUp(l: Loop, events: seq<Event>) {
    forall i | 0 <= i < |events| :: FollowsUpAt(l, events, i)
  }

  /** The events that handling these messages calls for, and how many are counted as processed. */
  predicate CallsFor(l: Loop, messages: seq<Message>, events: seq<Event>, processed: nat) {
    && Dispatches(events) == messages && FollowsUp(l, events)
    && Acknowledgements(events) == DueOf(l, messages)
    && processed == Succeeding(Acknowledgements(events))
  }

  lemma EventsSnoc(l: Loop, messages: seq<Message>, m: Message)
    ensures EventsOf(l, messages + [m]) ==
      if Due(l, m) then EventsOf(l, messages) + [Dispatched(m)] + [Acknowledged(m)]
      else EventsOf(l, messages) + [Dispatched(m)]
  {
    Snoc(messages, m);
  }

  lemma OneMoreEvent(events: seq<Event>, event: Event)
    ensures Dispatches(events + [event]) == Dispatches(events) + if event.Dispatched? then [event.message] else []
    ensures Acknowledgements(events + [event])
      == Acknowledgements(events) + if event.Acknowledged? then [event.message] else []
  {
    assert (events + [event])[..|events|] == events;
  }

  lemma DueSnoc(l: Loop, messages: seq<Message>, m: Message)
    ensures DueOf(l, messages + [m]) == DueOf(l, messages) + if Due(l, m) then [m] else []
  {
    Snoc(messages, m);
  }

  lemma SucceedingSnoc(messages: seq<Message>, m: Message)
    ensures Succeeding(messages + [m]) == Succeeding(messages) + if m.acknowledges then 1 else 0
  {
    Snoc(messages, m);
  }

  /** The processed count is the number of acknowledgements due that succeed. */
  lemma {:induction false} ProcessedAreSucceeding(l: Loop, messages: seq<Message>)
    ensures Count(messages, l, Processed) == Succeeding(DueOf(l, messages))
  {
    if messages != [] {
      var init, m := messages[..|messages| - 1], messages[|messages| - 1];
      ProcessedAreSucceeding(l, init);
      SucceedingSnoc(DueOf(l, init), m);
      assert DueOf(l, init) + [] == DueOf(l, init);
      assert ClassOf(l, m) == Processed <==> Due(l, m) && m.acknowledges;
    }
  }

  lemma CallsForOne(l: Loop, messages: seq<Message>, events: seq<Event>, m: Message)
    requires Dispatches(events) == messages && Acknowledgements(events) == DueOf(l, messages)
    ensures var all := if Due(l, m) then events + [Dispatched(m)] + [Acknowledged(m)] else events + [Dispatched(m)];
      Dispatches(all) == messages + [m] && Acknowledgements(all) == DueOf(l, messages + [m])
  {
    DueSnoc(l, messages, m);
    OneMoreEvent(events, Dispatched(m));
    OneMoreEvent(events + [Dispatched(m)], Acknowledged(m));
  }

  lemma FollowsUpOne(l: Loop, events: seq<Event>, m: Message)
    requires FollowsUp(l, events)
    ensures FollowsUp(l, if Due(l, m) then events + [Dispatched(m)] + [Acknowledged(m)] else events + [Dispatched(m)])
  {
    var n := |events|;
    var all := if Due(l, m) then events + [Dispatched(m)] + [Acknowledged(m)] else events + [Dispatched(m)];
    assert all[n] == Dispatched(m) && (Due(l, m) ==> all[n + 1] == Acknowledged(m));
    forall i | 0 <= i < |all| ensures FollowsUpAt(l, all, i) {
      if i < n {
        assert FollowsUpAt(l, events, i) && all[i] == events[i];
        assert i + 1 < n ==> all[i + 1] == events[i + 1];
      }
    }
  }

  lemma {:induction false} EventsFollowUp(l: Loop, messages: seq<Message>)
    ensures FollowsUp(l, EventsOf(l, messages))
  {
    if messages != [] {
      var init, m := messages[..|messages| - 1], messages[|messages| - 1];
      EventsFollowUp(l, init);
      FollowsUpOne(l, EventsOf(l, init), m);
      EventsSnoc(l, init, m);
      assert messages == init + [m];
    }
  }

  lemma {:induction false} AllAreDue(messages: seq<Message>)
    ensures DueOf(Kafka, messages) == messages
  {
    if messages != [] {
      AllAreDue(messages[..|messages| - 1]);
    }
  }

  lemma {:induction false} EventsOfAll(l: Loop, messages: seq<Message>)
    ensures Dispatches(EventsOf(l, messages)) == messages
    ensures Acknowledgements(EventsOf(l, messages)) == DueOf(l, messages)
  {
    if messages != [] {
      var init, m := messages[..|messages| - 1], messages[|messages| - 1];
      EventsOfAll(l, init);
      EventsSnoc(l, init, m);
      CallsForOne(l, init, EventsOf(l, init), m);
      assert messages == init + [m];
    }
  }

  /** Each loop makes exactly the calls that its messages call for. */
  lemma EventsCallFor(l: Loop, messages: seq<Message>)
    ensures CallsFor(l, messages, EventsOf(l, messages), Count(messages, l, Processed))
  {
    EventsFollowUp(l, messages);
    EventsOfAll(l, messages);
    ProcessedAreSucceeding(l, messages);
  }

  /** A receive from SQS: a fault, or a batch. */
  datatype Poll = PollFault | Batch(messages: seq<Message>)

  /** A fetch from Kafka: a fault, or one message. */
  datatype Fetch = FetchFault | Fetched(message: Message)

  function Received(polls: seq<Poll>): seq<Message> {
    if polls == [] then []
    else Received(polls[..|polls| - 1]) + match polls[|polls| - 1] case PollFault => [] case Batch(messages) => messages
  }

  function FetchedOf(fetches: seq<Fetch>): seq<Message> {
    if fetches == [] then []
    else FetchedOf(fetches[..|fetches| - 1]) + match fetches[|fetches| - 1] case FetchFault => [] case Fetched(m) => [m]
  }

  class Consumer {
    var received: nat
    var processed: nat
    var failed: nat
    var handled: seq<Message>
    var events: seq<Event>

    constructor ()
      ensures received == processed == failed == 0 && handled == [] && events == []
    {
      received, processed, failed, handled, events := 0, 0, 0, [], [];
    }

    /** The counters say how the messages handled so far fared, and the messages received but
        not yet handled are the whole difference. */
    ghost predicate Counts(l: Loop, pending: nat)
      reads this
    {
      && processed == Count(handled, l, Processed)
      && failed == Count(handled, l, Failed)
      && received == processed + failed + pending
      && events == EventsOf(l, handled)
    }

    method HandleSqs(m: Message, ghost pending: nat)
      requires Counts(Sqs, pending + 1)
      modifies this
      ensures Counts(Sqs, pending) && handled == old(handled) + [m] && received == old(received)
      ensures events == old(events) + [Dispatched(m)] + if Understood(m) then [Acknowledged(m)] else []
      ensures processed == old(processed) + if Understood(m) && m.acknowledges then 1 else 0
      ensures failed == old(failed) + if Understood(m) && m.acknowledges then 0 else 1
    {
      Snoc(handled, m);
      handled := handled + [m];
      events := events + [Dispatched(m)];
      var ok := Dispatch(m);
      if !ok {
        failed := failed + 1;
        return;
      }
      events := events + [Acknowledged(m)];
      if !m.acknowledges {
        failed := failed + 1;
      } else {
        processed := processed + 1;
      }
    }

    method HandleBatch(messages: seq<Message>)
      requires Counts(Sqs, 0)
      modifies this
      ensures Counts(Sqs, 0) && handled == old(handled) + messages && received == old(received) + |messages|
    {
      received := received + |messages|;
      for i := 0 to |messages|
        invariant Counts(Sqs, |messages| - i)
        invariant handled == old(handled) + messages[..i] && received == old(received) + |messages|
      {
        HandleSqs(messages[i], |messages| - i - 1);
        assert messages[..i + 1] == messages[..i] + [messages[i]];
      }
      assert messages[..|messages|] == messages;
    }

    /** The SQS loop, over any sequence of receives: between polls everything received has been
        counted, as processed or failed. */
    method RunSqs(polls: seq<Poll>)
      requires Counts(Sqs, 0)
      modifies this
      ensures Counts(Sqs, 0) && handled == old(handled) + Received(polls)
      ensures received == old(received) + |Received(polls)|
      ensures CallsFor(Sqs, handled, events, processed)
    {
      for k := 0 to |polls|
        invariant Counts(Sqs, 0) && handled == old(handled) + Received(polls[..k])
        invariant received == old(received) + |Received(polls[..k])|
      {
        assert polls[..k + 1][..k] == polls[..k];
        match polls[k] {
          case PollFault =>
          case Batch(messages) => HandleBatch(messages);
        }
      }
      assert polls[..|polls|] == polls;
      EventsCallFor(Sqs, handled);
    }

    method HandleKafka(m: Message)
      requires Counts(Kafka, 0)
      modifies this
      ensures Counts(Kafka, 0) && handled == old(handled) + [m] && received == old(received) + 1
      ensures events == old(events) + [Dispatched(m), Acknowledged(m)]
      ensures processed == old(processed) + if m.acknowledges then 1 else 0
      ensures failed == old(failed) + if m.acknowledges then 0 else 1
    {
      Snoc(handled, m);
      received := received + 1;
      handled := handled + [m];
      events := events + [Dispatched(m)];
      var _ := Dispatch(m);
      events := events + [Acknowledged(m)];
      if !m.acknowledges {
        failed := failed + 1;
      } else {
        processed := processed + 1;
      }
    }

    /** The Kafka loop, one message at a time; it commits whatever Dispatch says. */
    method RunKafka(fetches: seq<Fetch>)
      requires Counts(Kafka, 0)
      modifies this
      ensures Counts(Kafka, 0) && handled == old(handled) + FetchedOf(fetches)
      ensures received == old(received) + |FetchedOf(fetches)|
      ensures CallsFor(Kafka, handled, events, processed) && Acknowledgements(events) == handled
    {
      for k := 0 to |fetches|
        invariant Counts(Kafka, 0) && handled == old(handled) + FetchedOf(fetches[..k])
        invariant received == old(received) + |FetchedOf(fetches[..k])|
      {
        assert fetches[..k + 1][..k] == fetches[..k];
        match fetches[k] {
          case FetchFault =>
          case Fetched(m) => HandleKafka(m);
        }
      }
      assert fetches[..|fetches|] == fetches;
      EventsCallFor(Kafka, handled);
      AllAreDue(handled);
    }
  }
}
