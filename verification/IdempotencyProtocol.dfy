/** The idempotency middleware as a protocol: any number of requests, on any number of
    replicas, interleave their store commands, handler calls, faults, panics and crashes. */
module IdempotencyProtocol {
  import opened Common
  import opened Http
  import opened Redis

  datatype Outcome =
    | Unavailable                                       // 500: the store failed, or the record lapsed under us
    | Mismatch                                          // 422: the key belongs to another request body
    | InProgress                                        // 409: the owner is still running
    | Replayed(status: int, headers: map<string, string>, body: Bytes)
    | Served(ok: bool)                                  // by the handler; not ok if storing the response failed
    | Panicked
    | Crashed

  datatype Pc =
    | Reserving
    | Fetching
    | Handling(recorder: Recorder)
    | CompletingGet
    | CompletingSet(existing: Envelope)
    | Releasing(panicked: bool)
    | ReleasingAgain            // the release took effect and panicked: the deferred one follows
    | Finished(outcome: Outcome)

  /** A request. Its handler's calls, the deadline of its reservation and, unless its key was
      robbed then, the request that owned the record it was answered from are kept as history. */
  datatype Request = Request(key: string, hash: string, pc: Pc, calls: seq<Call>, deadline: int, source: Option<nat>)

  /** The world: the clock Redis runs on, its keys, the requests, and (as history) which
      request last reserved each key, and which keys are robbed: a second release of one request
      took the record of another that was live, and the key has not been reserved since with
      nobody live on it. */
  datatype World = World(
    ttl: Ttl,
    now: int,
    db: Db,
    requests: map<nat, Request>,
    owner: map<string, nat>,
    robbed: set<string>)

  datatype Action =
    | Arrive(id: nat, key: string, hash: string)
    | Reserve(id: nat, fault: Fault)
    | Fetch(id: nat, fault: Fault)
    | Handle(id: nat, call: Call)
    | Return(id: nat)
    | CompleteGet(id: nat, fault: Fault)
    | CompleteSet(id: nat, fault: Fault, panics: bool)
    | Release(id: nat, fault: Fault, panics: bool)
    | Panic(id: nat)
    | Crash(id: nat)
    | Tick(now: int)

  /** Between its reservation and its completion or release. */
  predicate Live(pc: Pc) {
    pc.Handling? || pc.CompletingGet? || pc.CompletingSet? || pc.Releasing?
  }

  /** The handler's part is over. */
  predicate Done(pc: Pc) {
    pc.Releasing? || pc.ReleasingAgain? || pc.Finished?
  }

  predicate Enabled(w: World, act: Action) {
    match act
    case Arrive(id, _, _) => id !in w.requests
    case Reserve(id, _) => id in w.requests && w.requests[id].pc.Reserving?
    case Fetch(id, _) => id in w.requests && w.requests[id].pc.Fetching?
    case Handle(id, _) => id in w.requests && w.requests[id].pc.Handling?
    case Return(id) => id in w.requests && w.requests[id].pc.Handling?
    case CompleteGet(id, _) => id in w.requests && w.requests[id].pc.CompletingGet?
    case CompleteSet(id, _, _) => id in w.requests && w.requests[id].pc.CompletingSet?
    case Release(id, _, _) => id in w.requests && (w.requests[id].pc.Releasing? || w.requests[id].pc.ReleasingAgain?)
    case Panic(id) => id in w.requests && Live(w.requests[id].pc) && !w.requests[id].pc.Releasing?
    case Crash(id) => id in w.requests && !w.requests[id].pc.Finished?
    case Tick(now) => w.now <= now
  }

  function Goto(w: World, id: nat, pc: Pc): World
    requires id in w.requests
  {
    w.(requests := w.requests[id := w.requests[id].(pc := pc)])
  }

  /** What a replay answers for the record it found. */
  function Judge(existing: Envelope, hash: string): Outcome {
    if existing.hash != hash then Mismatch
    else if existing.state.InFlight? then InProgress
    else Replayed(Effective(existing.status), existing.headers, existing.body)
  }

  function Step(w: World, act: Action): World
    requires Enabled(w, act)
  {
    match act
    case Arrive(id, key, hash) => w.(requests := w.requests[id := Request(key, hash, Reserving, [], 0, None)])
    case Reserve(id, fault) => StepReserve(w, id, fault)
    case Fetch(id, fault) =>
      var request := w.requests[id];
      (match if fault.Clean? then Get(w.db, w.now, request.key) else None
       case None => Goto(w, id, Finished(Unavailable))
       case Some(existing) =>
         var source := if request.key in w.owner && request.key !in w.robbed then Some(w.owner[request.key]) else None;
         w.(requests := w.requests[id := request.(pc := Finished(Judge(existing, request.hash)), source := source)]))
    case Handle(id, call) =>
      var request := w.requests[id];
      w.(requests := w.requests[id :=
        request.(pc := Handling(Apply(request.pc.recorder, call)), calls := request.calls + [call])])
    case Return(id) =>
      Goto(w, id, if ShouldCache(w.requests[id].pc.recorder.status) then CompletingGet else Releasing(false))
    case CompleteGet(id, fault) =>
      (match if fault.Clean? then Get(w.db, w.now, w.requests[id].key) else None
       case None => Goto(w, id, Finished(Served(fault.Clean?)))
       case Some(existing) => Goto(w, id, CompletingSet(existing)))
    case CompleteSet(id, fault, panics) => StepComplete(w, id, fault, panics)
    case Release(id, fault, panics) => StepRelease(w, id, fault, panics)
    case Panic(id) => Goto(w, id, Releasing(true))
    case Crash(id) => Goto(w, id, Finished(Crashed))
    case Tick(now) => w.(now := now)
  }

  /** No request on the key is between its reservation and its completion or release. */
  predicate Idle(w: World, key: string) {
    forall id <- w.requests | w.requests[id].key == key :: !Live(w.requests[id].pc)
  }

  function StepReserve(w: World, id: nat, fault: Fault): World
    requires Enabled(w, Reserve(id, fault))
  {
    var request := w.requests[id];
    var taken := Present(w.db, w.now, request.key);
    var pc := if !fault.Clean? then Finished(Unavailable) else if taken then Fetching else Handling(FRESH);
    if TakesEffect(fault) && !taken then
      w.(requests := w.requests[id := request.(pc := pc, deadline := w.now + w.ttl)],
         db := SetNx(w.db, w.now, request.key, Reservation(request.hash, w.now, w.ttl), w.ttl),
         owner := w.owner[request.key := id],
         robbed := if Idle(w, request.key) then w.robbed - {request.key} else w.robbed)
    else Goto(w, id, pc)
  }

  /** The response as the recorder captured it, rebuilt from the handler's calls. */
  function Response(existing: Envelope, calls: seq<Call>, now: int, ttl: Ttl): Envelope {
    var recorder := ApplyAll(FRESH, calls);
    Completion(existing, recorder.status, Captured(recorder.wire.header), recorder.body, now, ttl)
  }

  function StepComplete(w: World, id: nat, fault: Fault, panics: bool): World
    requires Enabled(w, CompleteSet(id, fault, panics))
  {
    var request := w.requests[id];
    var env := Response(request.pc.existing, request.calls, w.now, w.ttl);
    var w' := Goto(w, id, if panics then Releasing(true) else Finished(Served(fault.Clean?)));
    if TakesEffect(fault) then w'.(db := SetExisting(w.db, w.now, request.key, env, w.ttl)) else w'
  }

  /** Where a release leads. One that panics runs into the deferred one, which releases again. */
  function AfterRelease(pc: Pc, fault: Fault, panics: bool): Pc
    requires pc.Releasing? || pc.ReleasingAgain?
  {
    if pc == Releasing(false) then
      if !panics then Finished(Served(true)) else if TakesEffect(fault) then ReleasingAgain else Releasing(true)
    else Finished(Panicked)
  }

  /** A second release of the request would take the record of another that is live. */
  predicate Robs(w: World, id: nat)
    requires id in w.requests
  {
    var key := w.requests[id].key;
    && w.requests[id].pc.ReleasingAgain?
    && Present(w.db, w.now, key) && ScriptFinds(w.db[key].env)
    && key in w.owner && w.owner[key] in w.requests && Live(w.requests[w.owner[key]].pc)
  }

  function StepRelease(w: World, id: nat, fault: Fault, panics: bool): World
    requires Enabled(w, Release(id, fault, panics))
  {
    var key := w.requests[id].key;
    var w' := Goto(w, id, AfterRelease(w.requests[id].pc, fault, panics));
    if TakesEffect(fault) then
      w'.(db := DeleteMarked(w.db, w.now, key), robbed := w.robbed + if Robs(w, id) then {key} else {})
    else w'
  }

  // ---- Runs ----

  predicate Init(w: World) {
    w.db == map[] && w.requests == map[] && w.owner == map[] && w.robbed == {}
  }

  /** The assumption every guarantee rests on: no live handler outlives its reservation. */
  predicate Prompt(w: World) {
    forall id <- w.requests :: Live(w.requests[id].pc) ==> w.now < w.requests[id].deadline
  }

  predicate Next(w: World, act: Action, w': World) {
    Enabled(w, act) && w' == Step(w, act)
  }

  /** Playing a sequence of actions one after another. */
  predicate Plays(w: World, acts: seq<Action>)
    decreases acts
  {
    acts == [] || (Enabled(w, acts[0]) && Plays(Step(w, acts[0]), acts[1..]))
  }

  function Play(w: World, acts: seq<Action>): World
    requires Plays(w, acts)
    decreases acts
  {
    if acts == [] then w else Play(Step(w, acts[0]), acts[1..])
  }

  lemma {:induction false} PlayConcat(w: World, first: seq<Action>, second: seq<Action>)
    requires Plays(w, first) && Plays(Play(w, first), second)
    ensures Plays(w, first + second) && Play(w, first + second) == Play(Play(w, first), second)
    decreases first
  {
    if first == [] {
      assert first + second == second;
    } else {
      assert (first + second)[1..] == first[1..] + second;
      PlayConcat(Step(w, first[0]), first[1..], second);
    }
  }

  lemma PlayOne(w: World, act: Action)
    requires Enabled(w, act)
    ensures Plays(w, [act]) && Play(w, [act]) == Step(w, act)
  {
    assert [act][1..] == [];
  }

  predicate Follows(worlds: seq<World>, acts: seq<Action>) {
    && |worlds| == |acts| + 1
    && forall i | 0 <= i < |acts| :: Next(worlds[i], acts[i], worlds[i + 1])
  }

  /** Actions that can be played pass through a sequence of worlds, each following the last. */
  lemma {:induction false} PlaysFollows(w: World, acts: seq<Action>) returns (worlds: seq<World>)
    requires Plays(w, acts)
    ensures Follows(worlds, acts) && worlds[0] == w && worlds[|acts|] == Play(w, acts)
    decreases acts
  {
    if acts == [] {
      worlds := [w];
    } else {
      var rest := PlaysFollows(Step(w, acts[0]), acts[1..]);
      worlds := [w] + rest;
      forall i | 0 <= i < |acts| ensures Next(worlds[i], acts[i], worlds[i + 1]) {
        if i > 0 {
          assert Next(rest[i - 1], acts[1..][i - 1], rest[i]);
        }
      }
    }
  }

  predicate IsRun(worlds: seq<World>, acts: seq<Action>) {
    && Follows(worlds, acts)
    && Init(worlds[0])
    && forall w <- worlds :: Prompt(w)
  }

  /** Only the clock makes a handler late. */
  lemma StepKeepsPrompt(w: World, act: Action)
    requires Prompt(w) && Enabled(w, act) && !act.Tick?
    ensures Prompt(Step(w, act))
  {
  }

  lemma {:induction false} FollowsKeepsPrompt(worlds: seq<World>, acts: seq<Action>, i: nat)
    requires Follows(worlds, acts) && Prompt(worlds[0]) && i < |worlds| && forall act <- acts :: !act.Tick?
    ensures Prompt(worlds[i])
  {
    if i > 0 {
      FollowsKeepsPrompt(worlds, acts, i - 1);
      assert Next(worlds[i - 1], acts[i - 1], worlds[i]) && acts[i - 1] in acts;
      StepKeepsPrompt(worlds[i - 1], acts[i - 1]);
    }
  }

  /** What can be played at the end of a run, the clock standing still, makes it a longer run. */
  lemma PlayExtendsRun(worlds: seq<World>, acts: seq<Action>, more: seq<Action>) returns (longer: seq<World>)
    requires IsRun(worlds, acts) && Plays(worlds[|acts|], more) && forall act <- more :: !act.Tick?
    ensures IsRun(longer, acts + more) && worlds <= longer && longer[|acts + more|] == Play(worlds[|acts|], more)
  {
    var tail := PlaysFollows(worlds[|acts|], more);
    longer := worlds + tail[1..];
    forall i | 0 <= i < |acts + more| ensures Next(longer[i], (acts + more)[i], longer[i + 1]) {
      if i < |acts| {
        assert Next(worlds[i], acts[i], worlds[i + 1]);
      } else {
        assert Next(tail[i - |acts|], more[i - |acts|], tail[i - |acts| + 1]);
      }
    }
    assert worlds[|acts|] in worlds;
    forall i | 0 <= i < |longer| ensures Prompt(longer[i]) {
      if i < |worlds| {
        assert worlds[i] in worlds;
      } else {
        FollowsKeepsPrompt(tail, more, i - |acts|);
      }
    }
  }

  // ---- The invariant ----

  /** The record under a live request's key is its own, and in flight until the request
      itself completes it. */
  predicate Owns(w: World, id: nat)
    requires id in w.requests
  {
    var request := w.requests[id];
    && request.key in w.owner && w.owner[request.key] == id
    && request.key in w.db && request.deadline <= w.db[request.key].deadline && request.deadline <= w.now + w.ttl
    && (request.pc != Releasing(true) ==> w.db[request.key].env.state.InFlight?)
    && (request.pc.CompletingSet? ==> request.pc.existing.hash == request.hash)
  }

  /** A stored response is what its handler's calls amount to. */
  predicate Holds(status: int, headers: map<string, string>, body: Bytes, calls: seq<Call>) {
    && status == StatusOf(calls)
    && headers == Captured(ApplyAll(FRESH, calls).wire.header)
    && body == BytesOf(calls)
  }

  /** A record belongs to the request that last reserved its key. */
  predicate Rooted(w: World, key: string)
    requires key in w.db
  {
    && key in w.owner && w.owner[key] in w.requests
    && var env, owner := w.db[key].env, w.requests[w.owner[key]];
      && owner.key == key && env.hash == owner.hash
      && (env.state.Completed? ==> Done(owner.pc) && Holds(env.status, env.headers, env.body, owner.calls))
  }

  /** A replay came from the completed record of this request, with the same key and hash. */
  predicate Sourced(w: World, id: nat, source: nat)
    requires id in w.requests && w.requests[id].pc.Finished? && w.requests[id].pc.outcome.Replayed?
  {
    var request, outcome := w.requests[id], w.requests[id].pc.outcome;
    && source in w.requests
    && var owner := w.requests[source];
      && owner.key == request.key && owner.hash == request.hash
      && Done(owner.pc)
      && outcome.status == Effective(StatusOf(owner.calls))
      && outcome.headers == Captured(ApplyAll(FRESH, owner.calls).wire.header)
      && outcome.body == BytesOf(owner.calls)
  }

  predicate Answered(w: World, id: nat)
    requires id in w.requests
  {
    w.requests[id].pc.Finished? && w.requests[id].pc.outcome.Replayed?
  }

  /** No second release has taken a live request's record under the request's key. */
  predicate Unrobbed(w: World, id: nat)
    requires id in w.requests
  {
    w.requests[id].key !in w.robbed
  }

  /** The recorder of a running handler holds what its calls amount to. */
  predicate Recorded(request: Request) {
    && (request.pc.Reserving? ==> request.calls == [])
    && (request.pc.Handling? ==> request.pc.recorder == ApplyAll(FRESH, request.calls))
  }

  predicate RequestOk(w: World, id: nat)
    requires id in w.requests
  {
    && Recorded(w.requests[id])
    && (Unrobbed(w, id) && Live(w.requests[id].pc) ==> Owns(w, id))
    && (Answered(w, id) && w.requests[id].source.Some? ==> Sourced(w, id, w.requests[id].source.value))
  }

  predicate Inv(w: World) {
    && (forall id <- w.requests :: RequestOk(w, id))
    && (forall key <- w.db | key !in w.robbed :: Rooted(w, key))
  }

  /** Two live requests on one key are one request. */
  predicate Exclusive(w: World, key: string) {
    forall a, b | a in w.requests && b in w.requests ::
      Live(w.requests[a].pc) && Live(w.requests[b].pc) && w.requests[a].key == w.requests[b].key == key ==> a == b
  }

  /** No other request is live on the request's key. */
  predicate Alone(w: World, id: nat)
    requires id in w.requests
  {
    forall other <- w.requests | other != id && Live(w.requests[other].pc) ::
      w.requests[other].key != w.requests[id].key
  }

  lemma OwnerIsAlone(w: World, id: nat)
    requires Inv(w) && id in w.requests && Unrobbed(w, id) && Live(w.requests[id].pc)
    ensures Alone(w, id)
  {
    assert RequestOk(w, id);
    forall other <- w.requests | other != id && Live(w.requests[other].pc)
      ensures w.requests[other].key != w.requests[id].key
    {
      assert RequestOk(w, other);
    }
  }

  /** One request moved on; nothing but the record under its key changed, and that only while
      nobody else was live there, or the key is robbed. Then only facts about the request and
      its key need checking. */
  predicate Local(w: World, w': World, id: nat) {
    && id in w.requests && id in w'.requests
    && w' == w.(requests := w.requests[id := w'.requests[id]], db := w'.db, robbed := w'.robbed)
    && var before, after := w.requests[id], w'.requests[id];
      && after.key == before.key && after.hash == before.hash
      && w.robbed <= w'.robbed <= w.robbed + {before.key}
      && (after.calls == before.calls || before.pc.Handling?)
      && (Done(before.pc) ==> Done(after.pc))
      && (w'.db != w.db ==> w'.db - {before.key} == w.db - {before.key} && (Unrobbed(w', id) ==> Alone(w, id)))
  }

  lemma OthersStayOk(w: World, w': World, id: nat, other: nat)
    requires Inv(w) && Local(w, w', id) && other in w.requests && other != id
    ensures RequestOk(w', other)
  {
    assert RequestOk(w, other);
    if Unrobbed(w', other) && Live(w'.requests[other].pc) && w'.db != w.db {
      var key := w.requests[other].key;
      assert key != w.requests[id].key;
      assert key in w.db - {w.requests[id].key};
      assert key in w'.db - {w.requests[id].key};
      assert (w.db - {w.requests[id].key})[key] == (w'.db - {w.requests[id].key})[key];
    }
  }

  lemma OthersStayRooted(w: World, w': World, id: nat, key: string)
    requires Inv(w) && Local(w, w', id) && key in w'.db && key !in w'.robbed && key != w.requests[id].key
    ensures Rooted(w', key)
  {
    assert key in w'.db - {w.requests[id].key};
    assert key in w.db - {w.requests[id].key};
    assert (w.db - {w.requests[id].key})[key] == (w'.db - {w.requests[id].key})[key];
    assert Rooted(w, key);
  }

  lemma LocalKeepsInv(w: World, w': World, id: nat)
    requires Inv(w) && Local(w, w', id) && RequestOk(w', id)
    requires w.requests[id].key in w'.db && Unrobbed(w', id) ==> Rooted(w', w.requests[id].key)
    ensures Inv(w')
  {
    forall other <- w'.requests ensures RequestOk(w', other) {
      if other != id {
        OthersStayOk(w, w', id, other);
      }
    }
    forall key <- w'.db | key !in w'.robbed ensures Rooted(w', key) {
      if key != w.requests[id].key {
        OthersStayRooted(w, w', id, key);
      }
    }
  }

  predicate Reserves(w: World, id: nat, fault: Fault) {
    Enabled(w, Reserve(id, fault)) && TakesEffect(fault) && !Present(w.db, w.now, w.requests[id].key)
  }

  /** A reservation replaces a record only when that record has lapsed, and then, the run
      being prompt, no request still lives on it. */
  lemma ReserveKeepsOwners(w: World, id: nat, fault: Fault, other: nat)
    requires Inv(w) && Prompt(w) && Reserves(w, id, fault)
    requires other in w.requests && other != id && Live(w.requests[other].pc)
    requires Unrobbed(StepReserve(w, id, fault), other)
    ensures Owns(StepReserve(w, id, fault), other)
  {
    assert RequestOk(w, other) && Unrobbed(w, other);
    assert w.now < w.requests[other].deadline;
    assert w.requests[other].key != w.requests[id].key;
  }

  lemma ReserveKeepsRoots(w: World, id: nat, fault: Fault, key: string)
    requires Inv(w) && Reserves(w, id, fault) && key in w.db && key !in StepReserve(w, id, fault).robbed
    ensures Rooted(StepReserve(w, id, fault), key)
  {
    if key != w.requests[id].key {
      assert Rooted(w, key);
    }
  }

  lemma ReserveKeepsSources(w: World, id: nat, fault: Fault, other: nat)
    requires Inv(w) && Reserves(w, id, fault)
    requires other in w.requests && other != id && Answered(w, other) && w.requests[other].source.Some?
    ensures Sourced(StepReserve(w, id, fault), other, w.requests[other].source.value)
  {
    assert RequestOk(w, other);
  }

  lemma ReserveKeepsInv(w: World, id: nat, fault: Fault)
    requires Inv(w) && Prompt(w) && Reserves(w, id, fault)
    ensures Inv(StepReserve(w, id, fault))
  {
    var w' := StepReserve(w, id, fault);
    forall other <- w'.requests ensures RequestOk(w', other) {
      assert RequestOk(w, other);
      if other != id && Unrobbed(w', other) && Live(w.requests[other].pc) {
        ReserveKeepsOwners(w, id, fault, other);
      }
      if other != id && Answered(w, other) && w.requests[other].source.Some? {
        ReserveKeepsSources(w, id, fault, other);
      }
    }
    forall key <- w'.db | key !in w'.robbed ensures Rooted(w', key) {
      if key in w.db {
        ReserveKeepsRoots(w, id, fault, key);
      }
    }
  }

  lemma FetchKeepsInv(w: World, id: nat, fault: Fault)
    requires Inv(w) && Enabled(w, Fetch(id, fault))
    ensures Inv(Step(w, Fetch(id, fault)))
  {
    var w', key := Step(w, Fetch(id, fault)), w.requests[id].key;
    if key in w.db && key !in w.robbed {
      assert Rooted(w, key);
    }
    LocalKeepsInv(w, w', id);
  }

  lemma HandleKeepsInv(w: World, id: nat, call: Call)
    requires Inv(w) && Enabled(w, Handle(id, call))
    ensures Inv(Step(w, Handle(id, call)))
  {
    assert RequestOk(w, id);
    if Unrobbed(w, id) {
      assert Rooted(w, w.requests[id].key);
    }
    ApplySnoc(FRESH, w.requests[id].calls, call);
    LocalKeepsInv(w, Step(w, Handle(id, call)), id);
  }

  lemma CompleteKeepsOwner(w: World, id: nat, fault: Fault, panics: bool)
    requires Inv(w) && Prompt(w) && Enabled(w, CompleteSet(id, fault, panics))
    ensures id in StepComplete(w, id, fault, panics).requests && RequestOk(StepComplete(w, id, fault, panics), id)
  {
    assert RequestOk(w, id);
  }

  lemma CompleteKeepsRoot(w: World, id: nat, fault: Fault, panics: bool)
    requires Inv(w) && Prompt(w) && Enabled(w, CompleteSet(id, fault, panics)) && Unrobbed(w, id)
    ensures var w', key := StepComplete(w, id, fault, panics), w.requests[id].key;
      key in w'.db && Rooted(w', key)
  {
    RecorderIsFaithful(w.requests[id].calls);
    assert RequestOk(w, id) && Rooted(w, w.requests[id].key);
  }

  lemma CompleteKeepsInv(w: World, id: nat, fault: Fault, panics: bool)
    requires Inv(w) && Prompt(w) && Enabled(w, CompleteSet(id, fault, panics))
    ensures Inv(StepComplete(w, id, fault, panics))
  {
    var w' := StepComplete(w, id, fault, panics);
    CompleteKeepsOwner(w, id, fault, panics);
    if Unrobbed(w, id) {
      CompleteKeepsRoot(w, id, fault, panics);
      OwnerIsAlone(w, id);
    }
    assert w'.db - {w.requests[id].key} == w.db - {w.requests[id].key};
    LocalKeepsInv(w, w', id);
  }

  /** A second release that takes no live request's record finds nobody live on its key. */
  lemma StrayIsAlone(w: World, id: nat)
    requires Inv(w) && id in w.requests && Unrobbed(w, id) && w.requests[id].pc.ReleasingAgain? && !Robs(w, id)
    requires DeleteMarked(w.db, w.now, w.requests[id].key) != w.db
    ensures Alone(w, id)
  {
    forall other <- w.requests | other != id && Live(w.requests[other].pc)
      ensures w.requests[other].key != w.requests[id].key
    {
      assert RequestOk(w, other);
    }
  }

  lemma ReleaseKeepsInv(w: World, id: nat, fault: Fault, panics: bool)
    requires Inv(w) && Enabled(w, Release(id, fault, panics))
    ensures Inv(StepRelease(w, id, fault, panics))
  {
    var w', key := StepRelease(w, id, fault, panics), w.requests[id].key;
    assert RequestOk(w, id);
    assert w'.db - {key} == w.db - {key};
    if Unrobbed(w', id) {
      if key in w.db {
        assert Rooted(w, key);
      }
      if w.requests[id].pc.Releasing? {
        OwnerIsAlone(w, id);
      } else if w'.db != w.db {
        StrayIsAlone(w, id);
      }
    }
    LocalKeepsInv(w, w', id);
  }

  /** The remaining moves of a request only change where it stands. */
  lemma GotoKeepsInv(w: World, id: nat, pc: Pc)
    requires Inv(w) && id in w.requests && !pc.Reserving? && !pc.Handling?
    requires Done(w.requests[id].pc) ==> Done(pc)
    requires pc.Finished? ==> !pc.outcome.Replayed?
    requires Unrobbed(w, id) && Live(pc) ==> Owns(Goto(w, id, pc), id)
    ensures Inv(Goto(w, id, pc))
  {
    if w.requests[id].key in w.db && Unrobbed(w, id) {
      assert Rooted(w, w.requests[id].key);
    }
    LocalKeepsInv(w, Goto(w, id, pc), id);
  }

  lemma ArriveKeepsInv(w: World, id: nat, key: string, hash: string)
    requires Inv(w) && Enabled(w, Arrive(id, key, hash))
    ensures Inv(Step(w, Arrive(id, key, hash)))
  {
    var w' := Step(w, Arrive(id, key, hash));
    forall other <- w'.requests ensures RequestOk(w', other) {
      assert other != id ==> RequestOk(w, other);
    }
    forall k <- w'.db | k !in w'.robbed ensures Rooted(w', k) {
      assert Rooted(w, k);
    }
  }

  lemma StepKeepsInv(w: World, act: Action)
    requires Inv(w) && Prompt(w) && Enabled(w, act)
    ensures Inv(Step(w, act))
  {
    match act
    case Arrive(id, key, hash) => ArriveKeepsInv(w, id, key, hash);
    case Reserve(id, fault) =>
      if TakesEffect(fault) && !Present(w.db, w.now, w.requests[id].key) {
        ReserveKeepsInv(w, id, fault);
      } else {
        RefusedKeepsInv(w, id, fault);
      }
    case Fetch(id, fault) => FetchKeepsInv(w, id, fault);
    case Handle(id, call) => HandleKeepsInv(w, id, call);
    case Return(id) => ReturnKeepsInv(w, id);
    case CompleteGet(id, fault) => GetKeepsInv(w, id, fault);
    case CompleteSet(id, fault, panics) => CompleteKeepsInv(w, id, fault, panics);
    case Release(id, fault, panics) => ReleaseKeepsInv(w, id, fault, panics);
    case Panic(id) => PanicKeepsInv(w, id);
    case Crash(id) => GotoKeepsInv(w, id, Finished(Crashed));
    case Tick(now) => TickKeepsInv(w, now);
  }

  /** A reservation that does not reach the store, or finds the key taken. */
  lemma RefusedKeepsInv(w: World, id: nat, fault: Fault)
    requires Inv(w) && Enabled(w, Reserve(id, fault)) && !Reserves(w, id, fault)
    ensures Inv(StepReserve(w, id, fault))
  {
    if !fault.Clean? {
      GotoKeepsInv(w, id, Finished(Unavailable));
    } else {
      GotoKeepsInv(w, id, Fetching);
    }
  }

  lemma ReturnKeepsInv(w: World, id: nat)
    requires Inv(w) && Enabled(w, Return(id))
    ensures Inv(Step(w, Return(id)))
  {
    assert RequestOk(w, id);
    GotoKeepsInv(w, id, if ShouldCache(w.requests[id].pc.recorder.status) then CompletingGet else Releasing(false));
  }

  lemma GetKeepsInv(w: World, id: nat, fault: Fault)
    requires Inv(w) && Enabled(w, CompleteGet(id, fault))
    ensures Inv(Step(w, CompleteGet(id, fault)))
  {
    assert RequestOk(w, id);
    if Unrobbed(w, id) {
      assert Rooted(w, w.requests[id].key);
    }
    GotoKeepsInv(w, id, Step(w, CompleteGet(id, fault)).requests[id].pc);
  }

  lemma PanicKeepsInv(w: World, id: nat)
    requires Inv(w) && Enabled(w, Panic(id))
    ensures Inv(Step(w, Panic(id)))
  {
    assert RequestOk(w, id);
    GotoKeepsInv(w, id, Releasing(true));
  }

  lemma TickKeepsInv(w: World, now: int)
    requires Inv(w) && w.now <= now
    ensures Inv(w.(now := now))
  {
    var w' := w.(now := now);
    forall id <- w'.requests ensures RequestOk(w', id) {
      assert RequestOk(w, id);
    }
    forall key <- w'.db | key !in w'.robbed ensures Rooted(w', key) {
      assert Rooted(w, key);
    }
  }
}
