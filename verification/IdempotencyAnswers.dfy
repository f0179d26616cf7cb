/** What a request gets: when its handler runs, when its response is stored, and what every later
    request with its key is answered until the time to live is over. */
module IdempotencyAnswers {
  import opened Common
  import opened Http
  import opened Redis
  import opened IdempotencyProtocol
  import opened IdempotencyTheorems

  // ---- One request ----

  /** Reserving starts the handler exactly if the key is free and the reply arrives; the record
      then holds the request's hash and is in flight for the whole time to live. */
  lemma ReserveVerdict(w: World, id: nat, fault: Fault)
    requires Enabled(w, Reserve(id, fault))
    ensures var request, w' := w.requests[id], Step(w, Reserve(id, fault)); var key := request.key;
      var taken, pc := key in w.db && w.now < w.db[key].deadline, w'.requests[id].pc;
      && (pc.Handling? <==> fault.Clean? && !taken)
      && (pc.Fetching? <==> fault.Clean? && taken)
      && (pc == Finished(Unavailable) <==> !fault.Clean?)
      && w'.db == if fault.FailedBefore? || taken then w.db
                  else w.db[key := Entry(Envelope(InFlight, request.hash, 0, map[], [], w.now, w.now + w.ttl),
                                         w.now + w.ttl)]
  {
  }

  /** A record that is found is compared with the request's hash before anything else, then for
      whether it is in flight, and only then replayed, as it is stored. */
  lemma FetchVerdict(w: World, id: nat, fault: Fault)
    requires Enabled(w, Fetch(id, fault))
    ensures var request, w' := w.requests[id], Step(w, Fetch(id, fault)); var key := request.key;
      && w'.db == w.db && w'.requests[id].pc.Finished?
      && var found, outcome := fault.Clean? && key in w.db && w.now < w.db[key].deadline, w'.requests[id].pc.outcome;
        && (outcome == Unavailable <==> !found)
        && (found ==> var env := w.db[key].env;
              && (outcome == Mismatch <==> env.hash != request.hash)
              && (outcome == InProgress <==> env.hash == request.hash && env.state == InFlight)
              && (outcome.Replayed? <==> env.hash == request.hash && env.state == Completed)
              && (outcome.Replayed? ==>
                    outcome == Replayed(if env.status == 0 then 200 else env.status, env.headers, env.body)))
  {
  }

  /** A handler's response is to be stored exactly if its status is below 500; otherwise its key
      is to be released. */
  lemma ReturnVerdict(worlds: seq<World>, acts: seq<Action>, i: nat)
    requires IsRun(worlds, acts) && i < |acts| && acts[i].Return? && acts[i].id in worlds[i].requests
    ensures acts[i].id in worlds[i + 1].requests
    ensures var calls, pc := worlds[i].requests[acts[i].id].calls, worlds[i + 1].requests[acts[i].id].pc;
      && (pc == CompletingGet <==> StatusOf(calls) < 500)
      && (pc == Releasing(false) <==> StatusOf(calls) >= 500)
  {
    StepOfRun(worlds, acts, i);
    assert RequestOk(worlds[i], acts[i].id);
    RecorderIsFaithful(worlds[i].requests[acts[i].id].calls);
  }

  /** A crash ends a request where it stands, and its record stays; a panic sends it to its release. */
  lemma EndVerdict(w: World, act: Action)
    requires Enabled(w, act) && (act.Crash? || act.Panic?)
    ensures Step(w, act).db == w.db && act.id in Step(w, act).requests
    ensures Step(w, act).requests[act.id].pc == if act.Crash? then Finished(Crashed) else Releasing(true)
  {
  }

  /** The record holds the response to these calls, under the hash, for the whole time to live. */
  ghost predicate HoldsResponse(entry: Entry, hash: string, calls: seq<Call>, deadline: int) {
    && entry.deadline == deadline && entry.env.expiresAt == deadline
    && entry.env.state == State.Completed && entry.env.hash == hash
    && entry.env.status == StatusOf(calls) && entry.env.body == BytesOf(calls)
    && forall name ::
      (if name in entry.env.headers then Some(entry.env.headers[name]) else None)
      == if name in SKIPPED then None else FirstValue(ValuesOf(calls, name))
  }

  lemma ResponseHolds(existing: Envelope, calls: seq<Call>, now: int, ttl: Ttl)
    ensures HoldsResponse(Entry(Response(existing, calls, now, ttl), now + ttl), existing.hash, calls, now + ttl)
  {
    RecorderIsFaithful(calls);
    CapturedIsFirstValues(ApplyAll(FRESH, calls).wire.header, calls);
  }

  /** With no fault a completion goes through on a key that is not robbed: the record is read, and
      the response to the handler's calls is stored under the request's own hash. */
  lemma CompletionVerdict(worlds: seq<World>, acts: seq<Action>, i: nat)
    requires IsRun(worlds, acts) && i < |acts| && (acts[i].CompleteGet? || acts[i].CompleteSet?)
    requires acts[i].id in worlds[i].requests && worlds[i].requests[acts[i].id].key !in worlds[i].robbed
    ensures var w, w', request := worlds[i], worlds[i + 1], worlds[i].requests[acts[i].id];
      && acts[i].id in w'.requests
      && (acts[i].CompleteGet? && acts[i].fault.Clean? ==> w'.requests[acts[i].id].pc.CompletingSet? && w'.db == w.db)
      && (acts[i].CompleteSet? && TakesEffect(acts[i].fault) ==>
            && request.key in w'.db && w'.db == w.db[request.key := w'.db[request.key]]
            && HoldsResponse(w'.db[request.key], request.hash, request.calls, w.now + w.ttl))
  {
    StepOfRun(worlds, acts, i);
    var w, request := worlds[i], worlds[i].requests[acts[i].id];
    assert RequestOk(w, acts[i].id) && Owns(w, acts[i].id);
    assert w.now < request.deadline;
    if acts[i].CompleteSet? {
      ResponseHolds(request.pc.existing, request.calls, w.now, w.ttl);
    }
  }

  /** A release that takes effect, by a request that is live on a key that is not robbed and has
      not stored its response, frees the key. */
  lemma ReleaseVerdict(worlds: seq<World>, acts: seq<Action>, i: nat)
    requires IsRun(worlds, acts) && i < |acts| && acts[i].Release? && acts[i].id in worlds[i].requests
    requires worlds[i].requests[acts[i].id].key !in worlds[i].robbed
    requires worlds[i].requests[acts[i].id].pc == Releasing(false) && TakesEffect(acts[i].fault)
    ensures worlds[i + 1].db == worlds[i].db - {worlds[i].requests[acts[i].id].key}
  {
    StepOfRun(worlds, acts, i);
    assert RequestOk(worlds[i], acts[i].id) && Owns(worlds[i], acts[i].id);
    assert worlds[i].now < worlds[i].requests[acts[i].id].deadline;
  }

  // ---- Every later request ----

  /** Once a completion is stored under a key that is not robbed, and nobody can come to free it,
      the key holds the owner's response until its time to live is over. */
  lemma StoredIsHeld(worlds: seq<World>, acts: seq<Action>, key: string, i: nat, j: nat)
    requires IsRun(worlds, acts) && i < j < |worlds| && Stores(worlds[i], acts[i], key)
    requires key !in worlds[i].robbed && !Exposes(worlds[i], acts[i])
    requires worlds[j].now < worlds[i].now + worlds[i].ttl
    ensures var owner := worlds[i].requests[acts[i].id];
      key in worlds[j].db && HoldsResponse(worlds[j].db[key], owner.hash, owner.calls, worlds[i].now + worlds[i].ttl)
  {
    StepOfRun(worlds, acts, i);
    CompletionRestsIff(worlds[i], acts[i], key);
    CompletionIsImmutable(worlds, acts, key, i, j);
    CompletionVerdict(worlds, acts, i);
    CompletionIsStored(worlds[i], acts[i], key);
  }

  /** So until then every request with the key whose commands run without a fault gets no handler
      and is answered from the record: the owner's status, bytes and captured headers if it has the
      owner's hash, and a mismatch if it has not. */
  lemma RetryIsReplayed(worlds: seq<World>, acts: seq<Action>, key: string, i: nat, j: nat)
    requires IsRun(worlds, acts) && i < j < |acts| && Stores(worlds[i], acts[i], key)
    requires key !in worlds[i].robbed && !Exposes(worlds[i], acts[i])
    requires worlds[j].now < worlds[i].now + worlds[i].ttl
    requires (acts[j].Reserve? || acts[j].Fetch?) && acts[j].fault.Clean?
    requires acts[j].id in worlds[j].requests && worlds[j].requests[acts[j].id].key == key
    ensures acts[j].id in worlds[j + 1].requests && worlds[j + 1].db == worlds[j].db
    ensures acts[j].Reserve? ==> worlds[j + 1].requests[acts[j].id].pc == Fetching
    ensures acts[j].Fetch? ==>
      var owner, retry := worlds[i].requests[acts[i].id], worlds[j + 1].requests[acts[j].id];
      && retry.pc.Finished?
      && if retry.hash != owner.hash then retry.pc.outcome == Mismatch
         else
           && retry.pc.outcome.Replayed?
           && retry.pc.outcome.status == (if StatusOf(owner.calls) == 0 then 200 else StatusOf(owner.calls))
           && retry.pc.outcome.body == BytesOf(owner.calls)
           && forall name ::
             (if name in retry.pc.outcome.headers then Some(retry.pc.outcome.headers[name]) else None)
             == if name in SKIPPED then None else FirstValue(ValuesOf(owner.calls, name))
  {
    StoredIsHeld(worlds, acts, key, i, j);
    StepOfRun(worlds, acts, j);
    if acts[j].Reserve? {
      ReserveVerdict(worlds[j], acts[j].id, Clean);
    } else {
      FetchVerdict(worlds[j], acts[j].id, Clean);
    }
  }
}
