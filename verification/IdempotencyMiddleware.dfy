/** The middleware as it is written: one call runs its store effects in order, with a
    deferred release for whatever panics. Each call is a sequence of the protocol's steps. */
module IdempotencyMiddleware {
  import opened Common
  import opened Http
  import opened Recording
  import opened Redis
  import opened IdempotencyProtocol

  const REPLAY_MARKER := "X-Idempotent-Replay"
  const STORE_FAILED := "X-Idempotent-Cache"

  /** What each store command of one call runs into, and whether the last one before the end
      panics, so that the deferred release follows it. */
  datatype Faults = Faults(
    reserve: Fault,
    fetch: Fault,
    completeGet: Fault,
    completeSet: Fault,
    release: Fault,
    panics: bool,
    deferred: Fault)

  /** What a handler does with its writer, and whether it then panics. */
  datatype Handler = Handler(calls: seq<Call>, panics: bool)

  datatype Answer = PassedThrough | InvalidKey | UnreadableBody | Decided(outcome: Outcome)

  // ---- What the client is sent ----

  /** An error response: its status and its code. */
  datatype Denial = Denial(status: int, code: string)

  const INVALID_KEY := Denial(400, "IDEMPOTENCY_KEY_INVALID")
  const INVALID_BODY := Denial(400, "INVALID_JSON")
  const UNAVAILABLE := Denial(500, "INTERNAL_ERROR")
  const MISMATCH := Denial(422, "IDEMPOTENCY_KEY_MISMATCH")
  const IN_PROGRESS := Denial(409, "IDEMPOTENT_REQUEST_IN_PROGRESS")

  /** Every command of the call works, and nothing panics. */
  predicate FaultFree(faults: Faults) {
    && faults.reserve.Clean? && faults.fetch.Clean? && faults.completeGet.Clean? && faults.completeSet.Clean?
    && faults.release.Clean? && !faults.panics
  }

  /** The verdict on a record that was found: a mismatch before in progress before a replay. */
  predicate Verdict(env: Envelope, hash: string, outcome: Outcome) {
    && (outcome == Mismatch <==> env.hash != hash)
    && (outcome == InProgress <==> env.hash == hash && env.state == InFlight)
    && (outcome.Replayed? <==> env.hash == hash && env.state == State.Completed)
    && (outcome.Replayed? ==>
          outcome == Replayed(if env.status == 0 then 200 else env.status, env.headers, env.body))
  }

  /** What a fault-free call does, read off the handler's calls: with the key free it serves, and
      leaves the response stored for the time to live if its status is below 500 and the key free
      otherwise; with the key taken it answers from the record and changes nothing. */
  predicate Answers(db: Db, db': Db, now: int, ttl: Ttl, key: string, hash: string, calls: seq<Call>,
                    outcome: Outcome) {
    if key in db && now < db[key].deadline then db' == db && Verdict(db[key].env, hash, outcome)
    else
      && outcome == Served(true)
      && (StatusOf(calls) < 500 ==>
            var headers := Captured(ApplyAll(FRESH, calls).wire.header);
            var env := Envelope(State.Completed, hash, StatusOf(calls), headers, BytesOf(calls), now, now + ttl);
            db' == db[key := Entry(env, now + ttl)])
      && (StatusOf(calls) >= 500 ==> db' == db - {key})
  }

  /** The rest of such a call: the reserved record gives way to the response if its status is
      below 500, and goes otherwise. */
  predicate Settles(db: Db, db': Db, now: int, ttl: Ttl, key: string, calls: seq<Call>)
    requires Present(db, now, key)
  {
    && (StatusOf(calls) < 500 ==>
          var headers, existing := Captured(ApplyAll(FRESH, calls).wire.header), db[key].env;
          var env := Envelope(State.Completed, existing.hash, StatusOf(calls), headers, BytesOf(calls),
                              existing.createdAt, now + ttl);
          db' == db[key := Entry(env, now + ttl)])
    && (StatusOf(calls) >= 500 && db[key].env.state == InFlight ==> db' == db - {key})
  }

  /** How the error with a code is written out. */
  type Encoder = string -> Bytes

  function Denied(w: Wire, d: Denial, encode: Encoder): Wire {
    var w' := WireStatus(w.(header := w.header["Content-Type" := ["application/json"]]), d.status);
    WireBytes(w', encode(d.code))
  }

  function ReplayedWire(w: Wire, status: int, headers: map<string, string>, body: Bytes): Wire {
    var w' := WireStatus(w.(header := ReplayHeader(w.header, headers)), status);
    if body == [] then w' else WireBytes(w', body)
  }

  /** The wire after a call that decided on an outcome; the calls are the handler's, if it ran. */
  function Sent(w: Wire, outcome: Outcome, calls: seq<Call>, encode: Encoder): Wire {
    match outcome
    case Unavailable => Denied(w, UNAVAILABLE, encode)
    case Mismatch => Denied(w, MISMATCH, encode)
    case InProgress => Denied(w.(header := w.header["Retry-After" := ["1"]]), IN_PROGRESS, encode)
    case Replayed(status, headers, body) => ReplayedWire(w, status, headers, body)
    case Served(ok) =>
      var end := ApplyAll(FRESH, calls).wire;
      if ok then end else end.(header := end.header[STORE_FAILED := ["store-failed"]])
    case Panicked => ApplyAll(FRESH, calls).wire
    case Crashed => w
  }

  /** A handler's client is sent what the handler wrote; if its response could not be stored the
      header map says so, when nothing can be sent any more. */
  lemma ServedSends(w: Wire, calls: seq<Call>, encode: Encoder)
    ensures Sent(w, Served(true), calls, encode) == Sent(w, Panicked, calls, encode) == ApplyAll(FRESH, calls).wire
    ensures var end, wire := Sent(w, Served(false), calls, encode), ApplyAll(FRESH, calls).wire;
      && end.statuses == wire.statuses && end.committed == wire.committed && end.body == wire.body
      && "X-Idempotent-Cache" in end.header && end.header["X-Idempotent-Cache"] == ["store-failed"]
      && forall name <- wire.header | name != "X-Idempotent-Cache" ::
           name in end.header && end.header[name] == wire.header[name]
  {
  }

  /** On a writer that has sent nothing, each refusal sends its own status and code. */
  lemma RefusalsSent(w: Wire, calls: seq<Call>, encode: Encoder)
    requires w.statuses == [] && w.body == []
    ensures var sent := Sent(w, Unavailable, calls, encode);
      sent.statuses == [500] && sent.body == encode("INTERNAL_ERROR")
    ensures var sent := Sent(w, Mismatch, calls, encode);
      sent.statuses == [422] && sent.body == encode("IDEMPOTENCY_KEY_MISMATCH")
    ensures var sent := Sent(w, InProgress, calls, encode);
      && sent.statuses == [409] && sent.body == encode("IDEMPOTENT_REQUEST_IN_PROGRESS")
      && "Retry-After" in sent.committed && sent.committed["Retry-After"] == ["1"]
    ensures Denied(w, INVALID_KEY, encode).statuses == Denied(w, INVALID_BODY, encode).statuses == [400]
    ensures forall d: Denial :: !Informational(d.status) ==>
      "Content-Type" in Denied(w, d, encode).committed
      && Denied(w, d, encode).committed["Content-Type"] == ["application/json"]
  {
    assert forall body: Bytes :: [] + body == body;
  }

  /** The statuses, the bytes and the committed headers of a replay. */
  lemma ReplaySends(w: Wire, status: int, headers: map<string, string>, body: Bytes)
    requires w.statuses == [] && w.body == []
    ensures var replay := ReplayedWire(w, status, headers, body);
      && replay.body == body && replay.header == ReplayHeader(w.header, headers)
      && Finish(replay).statuses == (if Informational(status) then [status, STATUS_OK] else [status])
      && Finish(replay).committed == replay.header
  {
    assert [] + body == body;
  }

  lemma OwnerSends(calls: seq<Call>)
    ensures Finish(ApplyAll(FRESH, calls).wire).statuses ==
      if Informational(StatusOf(calls)) then [StatusOf(calls), STATUS_OK] else [StatusOf(calls)]
  {
    assert Around(FRESH.wire) == FRESH;
    RecorderKeepsStatus(FRESH.wire, calls);
    if !Committed(calls) {
      UncommittedDefaults(calls);
    }
  }

  /** A replay shows its client what the handler of the stored response showed its own: the
      same status and bytes, and the same first value of every kept header. What the outer
      layers had already set on the replay stays, unless the response had it too. */
  lemma ReplayShowsTheResponse(w: Wire, calls: seq<Call>)
    requires w.statuses == [] && w.body == []
    ensures var owner := ApplyAll(FRESH, calls);
      var replay := ReplayedWire(w, Effective(StatusOf(calls)), Captured(owner.wire.header), BytesOf(calls));
      && replay.body == owner.wire.body && replay.header[REPLAY_MARKER] == ["true"]
      && (StatusOf(calls) != 0 ==> Finish(replay).statuses == Finish(owner.wire).statuses)
      && Finish(replay).committed == replay.header
      && forall name | name != REPLAY_MARKER ::
           FirstOf(replay.header, name)
           == if name !in SKIPPED && FirstOf(owner.wire.header, name).Some? then FirstOf(owner.wire.header, name)
              else FirstOf(w.header, name)
  {
    RecorderKeepsBytes(calls);
    OwnerSends(calls);
    var stored := ApplyAll(FRESH, calls).wire.header;
    ReplaySends(w, Effective(StatusOf(calls)), Captured(stored), BytesOf(calls));
    forall name | name != REPLAY_MARKER
      ensures FirstOf(ReplayHeader(w.header, Captured(stored)), name)
        == if name !in SKIPPED && FirstOf(stored, name).Some? then FirstOf(stored, name) else FirstOf(w.header, name)
    {
      ReplayedFirst(w.header, stored, name);
    }
  }

  lemma ReplayedFirst(before: Header, stored: Header, name: string)
    requires name != REPLAY_MARKER
    ensures FirstOf(ReplayHeader(before, Captured(stored)), name)
      == if name !in SKIPPED && FirstOf(stored, name).Some? then FirstOf(stored, name) else FirstOf(before, name)
  {
    assert name in Single(Captured(stored)) <==> name in Captured(stored);
  }

  function FirstOf(header: Header, name: string): Option<string> {
    FirstValue(if name in header then Some(header[name]) else None)
  }

  method RespondWithError(w: ResponseWriter, d: Denial, encode: Encoder)
    modifies w
    ensures w.Snapshot() == Denied(old(w.Snapshot()), d, encode)
  {
    w.header := w.header["Content-Type" := ["application/json"]];
    ghost var before := w.Snapshot();
    w.WriteHeader(d.status);
    assert w.Snapshot() == WireStatus(before, d.status);
    w.Write(encode(d.code));
  }

  /** The header map after a replay: the stored headers, one value each, and the marker. */
  function ReplayHeader(header: Header, headers: map<string, string>): Header {
    (header + Single(headers))[REPLAY_MARKER := ["true"]]
  }

  function Single(headers: map<string, string>): Header {
    map name | name in headers :: [headers[name]]
  }

  method SetHeaders(w: ResponseWriter, headers: map<string, string>)
    modifies w`header
    ensures w.header == old(w.header) + Single(headers)
  {
    var todo := headers.Keys;
    while todo != {}
      invariant todo <= headers.Keys
      invariant w.header == old(w.header) + map name | name in headers && name !in todo :: [headers[name]]
    {
      var name :| name in todo;
      todo := todo - {name};
      w.header := w.header[name := [headers[name]]];
    }
  }

  method Replay(w: ResponseWriter, env: Envelope)
    modifies w
    ensures w.Snapshot() == ReplayedWire(old(w.Snapshot()), Effective(env.status), env.headers, env.body)
  {
    SetHeaders(w, env.headers);
    w.header := w.header[REPLAY_MARKER := ["true"]];
    var status := if env.status == 0 then STATUS_OK else env.status;
    ghost var before := w.Snapshot();
    assert before == old(w.Snapshot()).(header := ReplayHeader(old(w.header), env.headers));
    w.WriteHeader(status);
    assert w.Snapshot() == WireStatus(before, status);
    if |env.body| > 0 {
      w.Write(env.body);
    }
  }

  /** What replayCachedResponse does with the record it was given. */
  method ReplayCachedResponse(w: ResponseWriter, existing: Envelope, hash: string, ghost calls: seq<Call>,
                              encode: Encoder)
    returns (outcome: Outcome)
    modifies w
    ensures outcome == Judge(existing, hash) && Verdict(existing, hash, outcome)
    ensures w.Snapshot() == Sent(old(w.Snapshot()), outcome, calls, encode)
  {
    if existing.hash != hash {
      RespondWithError(w, MISMATCH, encode);
      return Mismatch;
    }
    if existing.state.InFlight? {
      w.header := w.header["Retry-After" := ["1"]];
      assert w.Snapshot() == old(w.Snapshot()).(header := old(w.header)["Retry-After" := ["1"]]);
      RespondWithError(w, IN_PROGRESS, encode);
      return InProgress;
    }
    Replay(w, existing);
    outcome := Replayed(Effective(existing.status), existing.headers, existing.body);
  }

  /** The one request of a call, about to reserve its key. */
  function Start(store: RedisStore, key: string, hash: string): World
    reads store
  {
    World(store.ttl, store.now, store.db, map[0 := Request(key, hash, Reserving, [], 0, None)], map[], {})
  }

  function Handles(id: nat, calls: seq<Call>): seq<Action> {
    seq(|calls|, i requires 0 <= i < |calls| => Handle(id, calls[i]))
  }

  /** The actions of one call: up to the store's answer, then the handler, then the rest. */
  function Script(id: nat, db: Db, now: int, key: string, calls: seq<Call>, panics: bool, faults: Faults): seq<Action> {
    if !faults.reserve.Clean? then [Action.Reserve(id, faults.reserve)]
    else if Present(db, now, key) then [Action.Reserve(id, Clean)] + [Fetch(id, faults.fetch)]
    else [Action.Reserve(id, Clean)] + Handles(id, calls) + Ending(id, StatusOf(calls), panics, faults)
  }

  function Ending(id: nat, status: int, panics: bool, faults: Faults): seq<Action> {
    if panics then [Panic(id)] + [Action.Release(id, faults.release, false)]
    else [Return(id)] + (if ShouldCache(status) then Completing(id, faults) else Releasing(id, faults))
  }

  function Deferred(id: nat, faults: Faults): seq<Action> {
    if faults.panics then [Action.Release(id, faults.deferred, false)] else []
  }

  function Releasing(id: nat, faults: Faults): seq<Action> {
    [Action.Release(id, faults.release, faults.panics)] + Deferred(id, faults)
  }

  function Completing(id: nat, faults: Faults): seq<Action> {
    if faults.completeGet.Clean? then
      [CompleteGet(id, Clean)] + ([CompleteSet(id, faults.completeSet, faults.panics)] + Deferred(id, faults))
    else if faults.panics then [Panic(id)] + Deferred(id, faults)
    else [CompleteGet(id, faults.completeGet)]
  }

  lemma {:induction false} PlayHandles(w: World, id: nat, calls: seq<Call>)
    requires id in w.requests && w.requests[id].pc == Handling(FRESH) && w.requests[id].calls == []
    ensures Plays(w, Handles(id, calls))
    ensures Play(w, Handles(id, calls)) ==
      w.(requests := w.requests[id := w.requests[id].(pc := Handling(ApplyAll(FRESH, calls)), calls := calls)])
  {
    if calls != [] {
      var init, last := calls[..|calls|-1], calls[|calls|-1];
      assert Handles(id, calls) == Handles(id, init) + [Handle(id, last)];
      assert calls == init + [last];
      PlayHandles(w, id, init);
      var w' := Play(w, Handles(id, init));
      PlayOne(w', Handle(id, last));
      PlayConcat(w, Handles(id, init), [Handle(id, last)]);
    }
  }

  function Released(db: Db, now: int, key: string, fault: Fault): Db {
    if TakesEffect(fault) then DeleteMarked(db, now, key) else db
  }

  function Completed(db: Db, now: int, ttl: Ttl, key: string, calls: seq<Call>, faults: Faults): Db
    requires Present(db, now, key)
  {
    if faults.completeGet.Clean? && TakesEffect(faults.completeSet) then
      db[key := Entry(Response(db[key].env, calls, now, ttl), now + ttl)]
    else db
  }

  /** What the rest of a call does to the store once its handler has run. */
  function Settled(db: Db, now: int, ttl: Ttl, key: string, calls: seq<Call>, panics: bool, faults: Faults): Db
    requires Present(db, now, key)
  {
    if panics then Released(db, now, key, faults.release)
    else
      var db' := if ShouldCache(StatusOf(calls)) then Completed(db, now, ttl, key, calls, faults)
                 else Released(db, now, key, faults.release);
      if faults.panics then Released(db', now, key, faults.deferred) else db'
  }

  function OutcomeOf(calls: seq<Call>, panics: bool, faults: Faults): Outcome {
    if panics || faults.panics then Panicked
    else Served(!ShouldCache(StatusOf(calls)) || (faults.completeGet.Clean? && faults.completeSet.Clean?))
  }

  /** A request about to make its deferred release makes it, and ends. */
  lemma PlayDeferred(w: World, id: nat, faults: Faults)
    requires id in w.requests && faults.panics
    requires w.requests[id].pc == Pc.Releasing(true) || w.requests[id].pc.ReleasingAgain?
    ensures Ends(w, id, Deferred(id, faults), Released(w.db, w.now, w.requests[id].key, faults.deferred), Panicked)
  {
    PlayOne(w, Action.Release(id, faults.deferred, false));
  }

  /** Plays one action, then the rest. */
  lemma EndsAfter(w: World, id: nat, act: Action, rest: seq<Action>, db: Db, outcome: Outcome)
    requires Enabled(w, act) && Ends(Step(w, act), id, rest, db, outcome)
    ensures Ends(w, id, [act] + rest, db, outcome)
  {
    PlayOne(w, act);
    PlayConcat(w, [act], rest);
  }

  lemma PlayReleasing(w: World, id: nat, faults: Faults)
    requires id in w.requests && w.requests[id].pc == Pc.Releasing(false)
    ensures var db := Released(w.db, w.now, w.requests[id].key, faults.release);
      Ends(w, id, Releasing(id, faults),
        if faults.panics then Released(db, w.now, w.requests[id].key, faults.deferred) else db,
        if faults.panics then Panicked else Served(true))
  {
    var act := Action.Release(id, faults.release, faults.panics);
    var w' := Step(w, act);
    if faults.panics {
      PlayDeferred(w', id, faults);
      EndsAfter(w, id, act, Deferred(id, faults), Released(w'.db, w.now, w.requests[id].key, faults.deferred),
                Panicked);
    } else {
      PlayOne(w, act);
      assert [act] + [] == [act];
    }
  }

  lemma PlayCompleting(w: World, id: nat, faults: Faults)
    requires id in w.requests && w.requests[id].pc == CompletingGet && Present(w.db, w.now, w.requests[id].key)
    requires faults.completeGet.Clean?
    ensures var db := Completed(w.db, w.now, w.ttl, w.requests[id].key, w.requests[id].calls, faults);
      Ends(w, id, Completing(id, faults),
        if faults.panics then Released(db, w.now, w.requests[id].key, faults.deferred) else db,
        if faults.panics then Panicked else Served(faults.completeSet.Clean?))
  {
    var w1 := Step(w, CompleteGet(id, Clean));
    var act := CompleteSet(id, faults.completeSet, faults.panics);
    var w2 := Step(w1, act);
    var db, outcome := w2.db, Served(faults.completeSet.Clean?);
    if faults.panics {
      PlayDeferred(w2, id, faults);
      db, outcome := Released(w2.db, w.now, w.requests[id].key, faults.deferred), Panicked;
    }
    EndsAfter(w1, id, act, Deferred(id, faults), db, outcome);
    EndsAfter(w, id, CompleteGet(id, Clean), [act] + Deferred(id, faults), db, outcome);
  }

  lemma PlayUnread(w: World, id: nat, faults: Faults)
    requires id in w.requests && w.requests[id].pc == CompletingGet && !faults.completeGet.Clean?
    ensures Ends(w, id, Completing(id, faults),
      if faults.panics then Released(w.db, w.now, w.requests[id].key, faults.deferred) else w.db,
      if faults.panics then Panicked else Served(false))
  {
    if faults.panics {
      PlayDeferred(Step(w, Panic(id)), id, faults);
      EndsAfter(w, id, Panic(id), Deferred(id, faults), Released(w.db, w.now, w.requests[id].key, faults.deferred),
                Panicked);
    } else {
      PlayOne(w, CompleteGet(id, faults.completeGet));
    }
  }

  lemma PlayPanic(w: World, id: nat, faults: Faults)
    requires id in w.requests && w.requests[id].pc.Handling?
    ensures Ends(w, id, [Panic(id)] + [Action.Release(id, faults.release, false)],
      Released(w.db, w.now, w.requests[id].key, faults.release), Panicked)
  {
    var w', act := Step(w, Panic(id)), Action.Release(id, faults.release, false);
    PlayOne(w', act);
    EndsAfter(w, id, Panic(id), [act], Released(w.db, w.now, w.requests[id].key, faults.release), Panicked);
  }

  /** A handler that ran to its end: what the rest of the call does to the store. */
  lemma PlayEnding(w: World, id: nat, panics: bool, faults: Faults)
    requires id in w.requests && w.requests[id].pc == Handling(ApplyAll(FRESH, w.requests[id].calls))
    requires Present(w.db, w.now, w.requests[id].key)
    ensures var request := w.requests[id];
      Ends(w, id, Ending(id, StatusOf(request.calls), panics, faults),
        Settled(w.db, w.now, w.ttl, request.key, request.calls, panics, faults),
        OutcomeOf(request.calls, panics, faults))
  {
    var request := w.requests[id];
    RecorderIsFaithful(request.calls);
    if panics {
      PlayPanic(w, id, faults);
    } else {
      var w' := Step(w, Return(id));
      if !ShouldCache(StatusOf(request.calls)) {
        PlayReleasing(w', id, faults);
      } else if faults.completeGet.Clean? {
        PlayCompleting(w', id, faults);
      } else {
        PlayUnread(w', id, faults);
      }
      EndsAfter(w, id, Return(id),
                if ShouldCache(StatusOf(request.calls)) then Completing(id, faults) else Releasing(id, faults),
                Settled(w.db, w.now, w.ttl, request.key, request.calls, panics, faults),
                OutcomeOf(request.calls, panics, faults));
    }
  }

  predicate Ends(w: World, id: nat, script: seq<Action>, db: Db, outcome: Outcome) {
    Plays(w, script) && Play(w, script).db == db && id in Play(w, script).requests
    && Play(w, script).requests[id].pc == Finished(outcome)
  }

  function Booked(w: World, key: string, hash: string): Db {
    SetNx(w.db, w.now, key, Reservation(hash, w.now, w.ttl), w.ttl)
  }

  /** A call that does not get the key ends with the store's answer. */
  lemma PlayRefused(w: World, id: nat, calls: seq<Call>, panics: bool, faults: Faults)
    requires id in w.requests && w.requests[id].pc.Reserving?
    requires !faults.reserve.Clean? || Present(w.db, w.now, w.requests[id].key)
    ensures var request := w.requests[id];
      Ends(w, id, Script(id, w.db, w.now, request.key, calls, panics, faults),
        if TakesEffect(faults.reserve) then Booked(w, request.key, request.hash) else w.db,
        if faults.reserve.Clean? && faults.fetch.Clean? then Judge(w.db[request.key].env, request.hash)
        else Unavailable)
  {
    PlayOne(w, Action.Reserve(id, faults.reserve));
    if faults.reserve.Clean? {
      PlayOne(Step(w, Action.Reserve(id, Clean)), Fetch(id, faults.fetch));
      PlayConcat(w, [Action.Reserve(id, Clean)], [Fetch(id, faults.fetch)]);
    }
  }

  /** A call that gets the key runs its handler and ends as PlayEnding says. */
  lemma PlayGranted(w: World, id: nat, calls: seq<Call>, panics: bool, faults: Faults)
    requires id in w.requests && w.requests[id].pc.Reserving? && w.requests[id].calls == []
    requires faults.reserve.Clean? && !Present(w.db, w.now, w.requests[id].key)
    ensures var request := w.requests[id]; var booked := Booked(w, request.key, request.hash);
      && Present(booked, w.now, request.key)
      && Ends(w, id, Script(id, w.db, w.now, request.key, calls, panics, faults),
           Settled(booked, w.now, w.ttl, request.key, calls, panics, faults), OutcomeOf(calls, panics, faults))
  {
    PlayOne(w, Action.Reserve(id, Clean));
    var w1 := Step(w, Action.Reserve(id, Clean));
    PlayHandles(w1, id, calls);
    var mid := Play(w1, Handles(id, calls));
    PlayConcat(w, [Action.Reserve(id, Clean)], Handles(id, calls));
    PlayEnding(mid, id, panics, faults);
    PlayConcat(w, [Action.Reserve(id, Clean)] + Handles(id, calls), Ending(id, StatusOf(calls), panics, faults));
  }

  // ---- The whole call, in any world ----

  /** What one call does to the store. */
  function CallDb(db: Db, now: int, ttl: Ttl, key: string, hash: string, calls: seq<Call>, panics: bool,
                  faults: Faults): Db {
    var booked := SetNx(db, now, key, Reservation(hash, now, ttl), ttl);
    if !faults.reserve.Clean? || Present(db, now, key) then (if TakesEffect(faults.reserve) then booked else db)
    else Settled(booked, now, ttl, key, calls, panics, faults)
  }

  function CallOutcome(db: Db, now: int, key: string, hash: string, calls: seq<Call>, panics: bool,
                       faults: Faults): Outcome {
    if !faults.reserve.Clean? then Unavailable
    else if !Present(db, now, key) then OutcomeOf(calls, panics, faults)
    else if faults.fetch.Clean? then Judge(db[key].env, hash)
    else Unavailable
  }

  /** A call is its script, whatever other requests are around. */
  lemma PlayCall(w: World, id: nat, calls: seq<Call>, panics: bool, faults: Faults)
    requires id in w.requests && w.requests[id].pc.Reserving? && w.requests[id].calls == []
    ensures var request := w.requests[id];
      Ends(w, id, Script(id, w.db, w.now, request.key, calls, panics, faults),
        CallDb(w.db, w.now, w.ttl, request.key, request.hash, calls, panics, faults),
        CallOutcome(w.db, w.now, request.key, request.hash, calls, panics, faults))
  {
    if faults.reserve.Clean? && !Present(w.db, w.now, w.requests[id].key) {
      PlayGranted(w, id, calls, panics, faults);
    } else {
      PlayRefused(w, id, calls, panics, faults);
    }
  }

  lemma CleanCallSettles(db: Db, now: int, ttl: Ttl, key: string, calls: seq<Call>, faults: Faults)
    requires Present(db, now, key) && FaultFree(faults)
    ensures Settles(db, Settled(db, now, ttl, key, calls, false, faults), now, ttl, key, calls)
    ensures OutcomeOf(calls, false, faults) == Served(true)
  {
    RecorderIsFaithful(calls);
  }

  lemma CleanCallAnswers(db: Db, now: int, ttl: Ttl, key: string, hash: string, calls: seq<Call>, faults: Faults)
    requires FaultFree(faults)
    ensures Answers(db, CallDb(db, now, ttl, key, hash, calls, false, faults), now, ttl, key, hash, calls,
                    CallOutcome(db, now, key, hash, calls, false, faults))
  {
    if !Present(db, now, key) {
      var booked := SetNx(db, now, key, Reservation(hash, now, ttl), ttl);
      CleanCallSettles(booked, now, ttl, key, calls, faults);
      assert booked - {key} == db - {key};
    }
  }

  lemma ScriptStandsStill(id: nat, db: Db, now: int, key: string, calls: seq<Call>, panics: bool, faults: Faults)
    ensures forall act <- Script(id, db, now, key, calls, panics, faults) :: !act.Tick?
  {
  }

  /** So a call that nobody interleaves with can be added to any run, and every theorem about
      runs covers it. */
  lemma CallExtendsRun(worlds: seq<World>, acts: seq<Action>, id: nat, key: string, hash: string,
                       calls: seq<Call>, panics: bool, faults: Faults)
    returns (longer: seq<World>)
    requires IsRun(worlds, acts) && id !in worlds[|acts|].requests
    ensures var w := worlds[|acts|];
      var all := acts + ([Arrive(id, key, hash)] + Script(id, w.db, w.now, key, calls, panics, faults));
      && IsRun(longer, all) && worlds <= longer
      && var end := longer[|all|];
        && end.db == CallDb(w.db, w.now, w.ttl, key, hash, calls, panics, faults)
        && id in end.requests
        && end.requests[id].pc == Finished(CallOutcome(w.db, w.now, key, hash, calls, panics, faults))
  {
    var w := worlds[|acts|];
    var arrival, script := Arrive(id, key, hash), Script(id, w.db, w.now, key, calls, panics, faults);
    PlayOne(w, arrival);
    PlayCall(Step(w, arrival), id, calls, panics, faults);
    PlayConcat(w, [arrival], script);
    ScriptStandsStill(id, w.db, w.now, key, calls, panics, faults);
    longer := PlayExtendsRun(worlds, acts, [arrival] + script);
  }

  /** Runs the handler's calls behind a recorder and says what the recorder kept. */
  method Record(w: ResponseWriter, ghost outer: seq<Call>, calls: seq<Call>)
    returns (status: int, headers: map<string, string>, body: Bytes)
    requires w.Snapshot() == ApplyAll(FRESH, outer).wire && !Committed(outer)
    modifies w
    ensures w.Snapshot() == ApplyAll(FRESH, outer + calls).wire
    ensures status == StatusOf(outer + calls) && body == BytesOf(outer + calls)
    ensures headers == Captured(ApplyAll(FRESH, outer + calls).wire.header)
    ensures ApplyAll(FRESH, outer + calls).status == status && ApplyAll(FRESH, outer + calls).body == body
  {
    RecorderIsFaithful(outer);
    UncommittedDefaults(outer);
    RecorderIsFaithful(outer + calls);
    ApplyAllConcat(FRESH, outer, calls);
    var recorder := new ResponseRecorder(w);
    assert recorder.Snapshot() == ApplyAll(FRESH, outer);
    recorder.Serve(calls);
    assert recorder.Snapshot() == ApplyAll(FRESH, outer + calls);
    status, body := recorder.status, recorder.body;
    headers := recorder.CapturedHeaders();
  }

  /** The handler's part of a call that got the key. */
  method Run(store: RedisStore, w: ResponseWriter, key: string, ghost outer: seq<Call>, handler: Handler,
             faults: Faults)
    returns (outcome: Outcome)
    requires w.Snapshot() == ApplyAll(FRESH, outer).wire && !Committed(outer)
    requires Present(store.db, store.now, key)
    modifies store`db, w
    ensures store.db == Settled(old(store.db), store.now, store.ttl, key, outer + handler.calls, handler.panics, faults)
    ensures outcome == OutcomeOf(outer + handler.calls, handler.panics, faults)
    ensures FaultFree(faults) && !handler.panics ==>
      && outcome == Served(true)
      && Settles(old(store.db), store.db, store.now, store.ttl, key, outer + handler.calls)
    ensures !handler.panics && !faults.panics ==>
      outcome == Served(StatusOf(outer + handler.calls) >= 500
                        || (faults.completeGet.Clean? && faults.completeSet.Clean?))
    ensures handler.panics ==>
      && outcome == Panicked
      && (TakesEffect(faults.release) && old(store.db)[key].env.state == InFlight ==> store.db == old(store.db) - {key})
    ensures forall before, encode :: w.Snapshot() == Sent(before, outcome, outer + handler.calls, encode)
  {
    if FaultFree(faults) {
      CleanCallSettles(store.db, store.now, store.ttl, key, outer + handler.calls, faults);
    }
    var status, headers, body := Record(w, outer, handler.calls);
    if handler.panics {
      var _ := store.Release(key, faults.release);
      return Panicked;
    }
    var ok := true;
    if ShouldCache(status) {
      ok := store.Complete(key, status, headers, body, faults.completeGet, faults.completeSet);
    } else {
      var _ := store.Release(key, faults.release);
    }
    if faults.panics {
      var _ := store.Release(key, faults.deferred);
      return Panicked;
    }
    if !ok {
      w.header := w.header[STORE_FAILED := ["store-failed"]];
    }
    return Served(ok);
  }

  /** The whole call. Its effect on the store and its outcome are those of its script, the
      headers that the layers outside already set counting as its handler's first calls; and
      the client is sent what goes with the outcome, or without a key what the handler writes.
      The hash is the request body's, if the body could be read. */
  method Serve(store: RedisStore, w: ResponseWriter, key: string, validKey: bool, hash: Option<string>,
               ghost outer: seq<Call>, handler: Handler, faults: Faults, encode: Encoder)
    returns (answer: Answer)
    requires w.Snapshot() == ApplyAll(FRESH, outer).wire && !Committed(outer)
    modifies store`db, w
    ensures answer.PassedThrough? <==> key == ""
    ensures answer.InvalidKey? <==> key != "" && !validKey
    ensures answer.UnreadableBody? <==> key != "" && validKey && hash.None?
    ensures !answer.Decided? ==> store.db == old(store.db)
    ensures answer.Decided? ==>
      && store.db == CallDb(old(store.db), store.now, store.ttl, key, hash.value, outer + handler.calls, handler.panics,
                            faults)
      && answer.outcome == CallOutcome(old(store.db), store.now, key, hash.value, outer + handler.calls, handler.panics,
                                       faults)
    ensures answer.Decided? && FaultFree(faults) && !handler.panics ==>
      Answers(old(store.db), store.db, store.now, store.ttl, key, hash.value, outer + handler.calls, answer.outcome)
    ensures answer.Decided? ==> Ends(old(Start(store, key, hash.value)), 0,
      Script(0, old(store.db), store.now, key, outer + handler.calls, handler.panics, faults), store.db, answer.outcome)
    ensures w.Snapshot() == match answer
      case PassedThrough => PassAll(old(w.Snapshot()), handler.calls)
      case InvalidKey => Denied(old(w.Snapshot()), INVALID_KEY, encode)
      case UnreadableBody => Denied(old(w.Snapshot()), INVALID_BODY, encode)
      case Decided(outcome) => Sent(old(w.Snapshot()), outcome, outer + handler.calls, encode)
  {
    if key == "" {
      w.Serve(handler.calls);
      return PassedThrough;
    }
    if !validKey {
      RespondWithError(w, INVALID_KEY, encode);
      return InvalidKey;
    }
    if hash.None? {
      RespondWithError(w, INVALID_BODY, encode);
      return UnreadableBody;
    }
    var outcome := Decide(store, w, key, hash.value, outer, handler, faults, encode);
    answer := Decided(outcome);
  }

  /** From the reservation on. */
  method Decide(store: RedisStore, w: ResponseWriter, key: string, hash: string,
                ghost outer: seq<Call>, handler: Handler, faults: Faults, encode: Encoder)
    returns (outcome: Outcome)
    requires w.Snapshot() == ApplyAll(FRESH, outer).wire && !Committed(outer)
    modifies store`db, w
    ensures store.db == CallDb(old(store.db), store.now, store.ttl, key, hash, outer + handler.calls, handler.panics,
                               faults)
    ensures outcome == CallOutcome(old(store.db), store.now, key, hash, outer + handler.calls, handler.panics, faults)
    ensures FaultFree(faults) && !handler.panics ==>
      Answers(old(store.db), store.db, store.now, store.ttl, key, hash, outer + handler.calls, outcome)
    ensures Ends(old(Start(store, key, hash)), 0,
      Script(0, old(store.db), store.now, key, outer + handler.calls, handler.panics, faults), store.db, outcome)
    ensures w.Snapshot() == Sent(old(w.Snapshot()), outcome, outer + handler.calls, encode)
  {
    ghost var calls := outer + handler.calls;
    PlayCall(Start(store, key, hash), 0, calls, handler.panics, faults);
    if FaultFree(faults) {
      CleanCallAnswers(store.db, store.now, store.ttl, key, hash, calls, faults);
    }
    var reserved := store.Reserve(key, hash, faults.reserve, faults.fetch);
    match reserved {
      case StoreError =>
        RespondWithError(w, UNAVAILABLE, encode);
        outcome := Unavailable;
      case Existing(env) =>
        outcome := ReplayCachedResponse(w, env, hash, calls, encode);
      case Created =>
        outcome := Run(store, w, key, outer, handler, faults);
    }
  }
}
