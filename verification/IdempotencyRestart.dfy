/** When a stored completion can be lost before its time to live is over, for every run: exactly
    when some request on its key can still come to release it, or to store one that can be. */
module IdempotencyRestart {
  import opened Common
  import opened Http
  import opened Redis
  import opened IdempotencyProtocol
  import opened IdempotencyTheorems

  // ---- The condition ----

  /** The response stored over this record would be taken for a reservation. */
  predicate MarksOver(existing: Envelope, calls: seq<Call>) {
    !Benign(Response(existing, calls, 0, 1))
  }

  predicate MarksHeaders(calls: seq<Call>) {
    var headers := Captured(ApplyAll(FRESH, calls).wire.header);
    exists name <- headers :: Marked(name) || Marked(headers[name])
  }

  /** The request can still come to store a marked completion over an unmarked one. */
  predicate MayMark(request: Request) {
    match request.pc
    case Handling(recorder) => !recorder.wroteHeader || ShouldCache(recorder.status)
    case CompletingGet => MarksHeaders(request.calls)
    case CompletingSet(existing) => MarksOver(existing, request.calls)
    case _ => false
  }

  /** The request can still come to release its key. */
  predicate MayRelease(pc: Pc) {
    Live(pc) || pc.ReleasingAgain?
  }

  /** Somebody can still come to free the key. */
  predicate Threatened(w: World, key: string)
    requires key in w.db
  {
    if ScriptFinds(w.db[key].env) then
      exists id <- w.requests :: w.requests[id].key == key && MayRelease(w.requests[id].pc)
    else exists id <- w.requests :: w.requests[id].key == key && MayMark(w.requests[id])
  }

  /** The key holds a completion, until some time at least, and nobody threatens it. */
  predicate Holding(w: World, key: string, until: int) {
    key in w.db && until <= w.db[key].deadline && w.db[key].env.state.Completed? && !Threatened(w, key)
  }

  // ---- What is not threatened stays ----

  lemma BenignOver(existing: Envelope, calls: seq<Call>, now: int, ttl: Ttl)
    ensures Benign(Response(existing, calls, now, ttl)) <==> !MarksOver(existing, calls)
    ensures Benign(existing) ==> (MarksOver(existing, calls) <==> MarksHeaders(calls))
  {
  }

  /** A handler that has committed to a response that is not stored stays committed to it. */
  lemma HandleKeepsUnmarking(request: Request, call: Call)
    requires request.pc.Handling? && !MayMark(request)
    ensures !MayMark(request.(pc := Handling(Apply(request.pc.recorder, call)), calls := request.calls + [call]))
  {
  }

  /** Nobody can release a marked record, so nobody is live on its key, and it stays. */
  lemma MarkedStaysHeld(w: World, act: Action, key: string, until: int)
    requires Enabled(w, act) && Holding(w, key, until) && w.now < until && ScriptFinds(w.db[key].env)
    ensures Holding(Step(w, act), key, until)
  {
    assert forall id <- w.requests | w.requests[id].key == key :: !MayRelease(w.requests[id].pc);
    assert AtRest(w, key);
    RecordSurvivesStep(w, act, key);
    var w' := Step(w, act);
    forall id <- w'.requests | w'.requests[id].key == key ensures !MayRelease(w'.requests[id].pc) {
      assert id in w.requests ==> w.requests[id].key == key;
    }
  }

  /** An unmarked record stays, or gives way to another unmarked completion. */
  lemma UnmarkedStays(w: World, act: Action, key: string, until: int)
    requires Enabled(w, act) && Holding(w, key, until) && w.now < until <= w.now + w.ttl && !ScriptFinds(w.db[key].env)
    ensures var w' := Step(w, act);
      key in w'.db && until <= w'.db[key].deadline && w'.db[key].env.state.Completed? && Benign(w'.db[key].env)
  {
    assert forall id <- w.requests | w.requests[id].key == key :: !MayMark(w.requests[id]);
    if act.CompleteSet? {
      BenignOver(w.requests[act.id].pc.existing, w.requests[act.id].calls, w.now, w.ttl);
    }
  }

  lemma StepStaysUnmarking(w: World, act: Action, key: string, id: nat)
    requires Inv(w) && Enabled(w, act) && Present(w.db, w.now, key) && Benign(w.db[key].env)
    requires id in w.requests && w.requests[id].key == key && !MayMark(w.requests[id]) && id in Step(w, act).requests
    ensures Step(w, act).requests[id].key == key && !MayMark(Step(w, act).requests[id])
  {
    match act
    case Handle(other, call) =>
      if other == id {
        HandleKeepsUnmarking(w.requests[id], call);
      }
    case CompleteGet(_, _) => BenignOver(w.db[key].env, w.requests[id].calls, w.now, w.ttl);
    case _ =>
  }

  lemma UnmarkedStaysHeld(w: World, act: Action, key: string, until: int)
    requires Inv(w) && Enabled(w, act) && Holding(w, key, until) && w.now < until <= w.now + w.ttl
    requires !ScriptFinds(w.db[key].env)
    ensures Holding(Step(w, act), key, until)
  {
    var w' := Step(w, act);
    UnmarkedStays(w, act, key, until);
    forall id <- w'.requests | w'.requests[id].key == key ensures !MayMark(w'.requests[id]) {
      if id in w.requests {
        assert w.requests[id].key == key;
        StepStaysUnmarking(w, act, key, id);
      }
    }
  }

  lemma {:induction false} HoldingStays(worlds: seq<World>, acts: seq<Action>, key: string, until: int, i: nat, j: nat)
    requires IsRun(worlds, acts) && i <= j < |worlds| && Holding(worlds[i], key, until)
      && until <= worlds[i].now + worlds[i].ttl
    ensures worlds[i].now <= worlds[j].now && worlds[j].ttl == worlds[i].ttl
    ensures worlds[j].now < until ==> Holding(worlds[j], key, until)
    decreases j
  {
    if i < j {
      var w, act := worlds[j - 1], acts[j - 1];
      HoldingStays(worlds, acts, key, until, i, j - 1);
      StepOfRun(worlds, acts, j - 1);
      ClockStep(w, act);
      if worlds[j].now < until {
        if ScriptFinds(w.db[key].env) {
          MarkedStaysHeld(w, act, key, until);
        } else {
          UnmarkedStaysHeld(w, act, key, until);
        }
      }
    }
  }

  /** Once a completion is stored and not threatened, no handler runs for its key before
      completion time plus time to live. */
  lemma NoRerunWithinTtl(worlds: seq<World>, acts: seq<Action>, key: string, i: nat, j: nat)
    requires IsRun(worlds, acts) && i < j < |acts| && Stores(worlds[i], acts[i], key)
    requires key in worlds[i + 1].db ==> !Threatened(worlds[i + 1], key)
    requires Starts(worlds[j], acts[j], key)
    ensures worlds[j].now >= worlds[i].now + worlds[i].ttl
  {
    StepOfRun(worlds, acts, i);
    CompletionIsStored(worlds[i], acts[i], key);
    ClockStep(worlds[i], acts[i]);
    HoldingStays(worlds, acts, key, worlds[i].now + worlds[i].ttl, i + 1, j);
  }

  // ---- What is threatened can be lost ----

  /** A run goes on, the clock standing still. */
  predicate GoesOn(worlds: seq<World>, acts: seq<Action>, more: seq<World>, moreActs: seq<Action>)
    requires |worlds| == |acts| + 1
  {
    && IsRun(more, moreActs) && worlds <= more && acts <= moreActs
    && more[|moreActs|].now == worlds[|acts|].now && more[|moreActs|].ttl == worlds[|acts|].ttl
  }

  lemma Extend(worlds: seq<World>, acts: seq<Action>, act: Action) returns (more: seq<World>, moreActs: seq<Action>)
    requires IsRun(worlds, acts) && Enabled(worlds[|acts|], act) && !act.Tick?
    ensures GoesOn(worlds, acts, more, moreActs)
    ensures moreActs == acts + [act] && more == worlds + [Step(worlds[|acts|], act)]
  {
    var w := worlds[|acts|];
    assert w in worlds;
    StepKeepsPrompt(w, act);
    more, moreActs := worlds + [Step(w, act)], acts + [act];
    forall i | 0 <= i < |moreActs| ensures Next(more[i], moreActs[i], more[i + 1]) {
      if i < |acts| {
        assert Next(worlds[i], acts[i], worlds[i + 1]);
      }
    }
  }

  /** A free key is taken at once. */
  lemma FreeKeyStarts(worlds: seq<World>, acts: seq<Action>, key: string, hash: string)
    returns (more: seq<World>, moreActs: seq<Action>)
    requires IsRun(worlds, acts) && key !in worlds[|acts|].db
    ensures GoesOn(worlds, acts, more, moreActs) && |moreActs| == |acts| + 2
    ensures Starts(more[|acts| + 1], moreActs[|acts| + 1], key) && more[|acts| + 1].now == worlds[|acts|].now
  {
    var id := FreshId(worlds[|acts|].requests.Keys);
    more, moreActs := Extend(worlds, acts, Arrive(id, key, hash));
    more, moreActs := Extend(more, moreActs, Reserve(id, Clean));
  }

  /** Whoever may release the key comes to do so, and a record the script finds goes. */
  lemma MarkedIsReleased(worlds: seq<World>, acts: seq<Action>, key: string, id: nat)
    returns (more: seq<World>, moreActs: seq<Action>)
    requires IsRun(worlds, acts) && Present(worlds[|acts|].db, worlds[|acts|].now, key)
    requires ScriptFinds(worlds[|acts|].db[key].env)
    requires id in worlds[|acts|].requests && worlds[|acts|].requests[id].key == key
    requires MayRelease(worlds[|acts|].requests[id].pc)
    ensures GoesOn(worlds, acts, more, moreActs) && |acts| < |moreActs| && key !in more[|moreActs|].db
  {
    more, moreActs := worlds, acts;
    if MayStore(worlds[|acts|].requests[id].pc) {
      more, moreActs := Extend(worlds, acts, Panic(id));
    }
    more, moreActs := Extend(more, moreActs, Release(id, Clean, false));
  }

  /** The three stages of storing a marked completion. */
  lemma HandlerMarks(worlds: seq<World>, acts: seq<Action>, key: string, id: nat)
    returns (more: seq<World>, moreActs: seq<Action>)
    requires IsRun(worlds, acts) && id in worlds[|acts|].requests && worlds[|acts|].requests[id].key == key
    requires worlds[|acts|].requests[id].pc.Handling? && MayMark(worlds[|acts|].requests[id])
    ensures GoesOn(worlds, acts, more, moreActs) && |acts| < |moreActs|
    ensures var w := more[|moreActs|];
      && w.db == worlds[|acts|].db
      && id in w.requests && w.requests[id].key == key && w.requests[id].pc.CompletingGet? && MayMark(w.requests[id])
  {
    var w := worlds[|acts|];
    var request, call := w.requests[id], SetHeader("X-Note", [IN_FLIGHT]);
    RunKeepsInv(worlds, acts, |acts|);
    assert RequestOk(w, id);
    RecorderIsFaithful(request.calls);
    UncommittedIsCached(request.calls);
    more, moreActs := Extend(worlds, acts, Handle(id, call));
    ApplySnoc(FRESH, request.calls, call);
    MarkedHeaderMarks(request.calls);
    more, moreActs := Extend(more, moreActs, Return(id));
  }

  lemma UncommittedIsCached(calls: seq<Call>)
    ensures !ApplyAll(FRESH, calls).wroteHeader ==> ShouldCache(ApplyAll(FRESH, calls).status)
  {
    RecorderIsFaithful(calls);
    if !Committed(calls) {
      UncommittedDefaults(calls);
    }
  }

  lemma MarkedHeaderMarks(calls: seq<Call>)
    ensures MarksHeaders(calls + [SetHeader("X-Note", [IN_FLIGHT])])
  {
    var call := SetHeader("X-Note", [IN_FLIGHT]);
    ApplySnoc(FRESH, calls, call);
    var headers := Captured(ApplyAll(FRESH, calls + [call]).wire.header);
    assert "X-Note" in headers && headers["X-Note"] == IN_FLIGHT;
  }

  lemma GetMarks(worlds: seq<World>, acts: seq<Action>, key: string, id: nat)
    returns (more: seq<World>, moreActs: seq<Action>)
    requires IsRun(worlds, acts) && Present(worlds[|acts|].db, worlds[|acts|].now, key)
    requires id in worlds[|acts|].requests && worlds[|acts|].requests[id].key == key
    requires worlds[|acts|].requests[id].pc.CompletingGet? && MayMark(worlds[|acts|].requests[id])
    ensures GoesOn(worlds, acts, more, moreActs) && |acts| < |moreActs|
    ensures var w := more[|moreActs|];
      && w.db == worlds[|acts|].db
      && id in w.requests && w.requests[id].key == key && w.requests[id].pc.CompletingSet? && MayMark(w.requests[id])
  {
    more, moreActs := Extend(worlds, acts, CompleteGet(id, Clean));
  }

  lemma SetMarks(worlds: seq<World>, acts: seq<Action>, key: string, id: nat)
    returns (more: seq<World>, moreActs: seq<Action>)
    requires IsRun(worlds, acts) && Present(worlds[|acts|].db, worlds[|acts|].now, key)
    requires id in worlds[|acts|].requests && worlds[|acts|].requests[id].key == key
    requires worlds[|acts|].requests[id].pc.CompletingSet? && MayMark(worlds[|acts|].requests[id])
    ensures GoesOn(worlds, acts, more, moreActs) && |acts| < |moreActs|
    ensures var w := more[|moreActs|];
      && Present(w.db, w.now, key) && ScriptFinds(w.db[key].env)
      && id in w.requests && w.requests[id].key == key && MayRelease(w.requests[id].pc)
  {
    var w := worlds[|acts|];
    BenignOver(w.requests[id].pc.existing, w.requests[id].calls, w.now, w.ttl);
    more, moreActs := Extend(worlds, acts, CompleteSet(id, Clean, true));
  }

  /** Whoever may mark the record comes to do so. */
  lemma MarkerMarks(worlds: seq<World>, acts: seq<Action>, key: string, id: nat)
    returns (more: seq<World>, moreActs: seq<Action>)
    requires IsRun(worlds, acts) && Present(worlds[|acts|].db, worlds[|acts|].now, key)
    requires id in worlds[|acts|].requests && worlds[|acts|].requests[id].key == key
      && MayMark(worlds[|acts|].requests[id])
    ensures GoesOn(worlds, acts, more, moreActs)
    ensures var w := more[|moreActs|];
      && Present(w.db, w.now, key) && ScriptFinds(w.db[key].env)
      && id in w.requests && w.requests[id].key == key && MayRelease(w.requests[id].pc)
  {
    more, moreActs := worlds, acts;
    if more[|moreActs|].requests[id].pc.Handling? {
      more, moreActs := HandlerMarks(more, moreActs, key, id);
    }
    if more[|moreActs|].requests[id].pc.CompletingGet? {
      more, moreActs := GetMarks(more, moreActs, key, id);
    }
    more, moreActs := SetMarks(more, moreActs, key, id);
  }

  /** A handler for the key starts at step j, although the completion stored at step i has not expired. */
  predicate RestartsEarly(worlds: seq<World>, acts: seq<Action>, key: string, i: nat, j: nat) {
    && IsRun(worlds, acts) && i < j < |acts|
    && Starts(worlds[j], acts[j], key) && worlds[j].now < worlds[i].now + worlds[i].ttl
  }

  /** The run goes on to a handler for the key starting at once. */
  predicate GoesOnToStart(worlds: seq<World>, acts: seq<Action>, more: seq<World>, moreActs: seq<Action>, key: string)
    requires |worlds| == |acts| + 1
  {
    && IsRun(more, moreActs) && worlds <= more && acts <= moreActs && |acts| < |moreActs|
    && var j := |moreActs| - 1; Starts(more[j], moreActs[j], key) && more[j].now == worlds[|acts|].now
  }

  lemma StartsAtLast(worlds: seq<World>, acts: seq<Action>, mid: seq<World>, midActs: seq<Action>,
                     more: seq<World>, moreActs: seq<Action>, key: string)
    requires |worlds| == |acts| + 1 && GoesOn(worlds, acts, mid, midActs) && GoesOn(mid, midActs, more, moreActs)
    requires |moreActs| == |midActs| + 2 && Starts(more[|midActs| + 1], moreActs[|midActs| + 1], key)
    requires more[|midActs| + 1].now == mid[|midActs|].now
    ensures GoesOnToStart(worlds, acts, more, moreActs, key)
  {
  }

  lemma MarkedRestarts(worlds: seq<World>, acts: seq<Action>, key: string, id: nat)
    returns (more: seq<World>, moreActs: seq<Action>)
    requires IsRun(worlds, acts) && Present(worlds[|acts|].db, worlds[|acts|].now, key)
    requires ScriptFinds(worlds[|acts|].db[key].env)
    requires id in worlds[|acts|].requests && worlds[|acts|].requests[id].key == key
    requires MayRelease(worlds[|acts|].requests[id].pc)
    ensures GoesOnToStart(worlds, acts, more, moreActs, key)
  {
    var mid, midActs := MarkedIsReleased(worlds, acts, key, id);
    more, moreActs := FreeKeyStarts(mid, midActs, key, worlds[|acts|].requests[id].hash);
    StartsAtLast(worlds, acts, mid, midActs, more, moreActs, key);
  }

  lemma MarkerRestarts(worlds: seq<World>, acts: seq<Action>, key: string, id: nat)
    returns (more: seq<World>, moreActs: seq<Action>)
    requires IsRun(worlds, acts) && Present(worlds[|acts|].db, worlds[|acts|].now, key)
    requires id in worlds[|acts|].requests && worlds[|acts|].requests[id].key == key
      && MayMark(worlds[|acts|].requests[id])
    ensures GoesOnToStart(worlds, acts, more, moreActs, key)
  {
    more, moreActs := MarkerMarks(worlds, acts, key, id);
    more, moreActs := MarkedRestarts(more, moreActs, key, id);
  }

  /** A threatened completion is lost: its run can go on to an early restart, by a retry of one
      of the requests on the key. */
  lemma ThreatenedRestarts(worlds: seq<World>, acts: seq<Action>, key: string)
    returns (more: seq<World>, moreActs: seq<Action>)
    requires IsRun(worlds, acts) && Present(worlds[|acts|].db, worlds[|acts|].now, key)
    requires Threatened(worlds[|acts|], key)
    ensures GoesOnToStart(worlds, acts, more, moreActs, key)
  {
    var w := worlds[|acts|];
    if ScriptFinds(w.db[key].env) {
      var id :| id in w.requests && w.requests[id].key == key && MayRelease(w.requests[id].pc);
      more, moreActs := MarkedRestarts(worlds, acts, key, id);
    } else {
      var id :| id in w.requests && w.requests[id].key == key && MayMark(w.requests[id]);
      more, moreActs := MarkerRestarts(worlds, acts, key, id);
    }
  }

  lemma RunPrefix(worlds: seq<World>, acts: seq<Action>, n: nat)
    requires IsRun(worlds, acts) && n <= |acts|
    ensures IsRun(worlds[..n + 1], acts[..n])
  {
    forall i | 0 <= i < n ensures Next(worlds[..n + 1][i], acts[..n][i], worlds[..n + 1][i + 1]) {
      assert Next(worlds[i], acts[i], worlds[i + 1]);
    }
  }

  /** The exact condition, in every run: once a completion is stored, its run can go on to a
      handler for the key starting before its time to live is over exactly if it is threatened. */
  lemma EarlyRestartIff(worlds: seq<World>, acts: seq<Action>, key: string, i: nat)
    requires IsRun(worlds, acts) && i < |acts| && Stores(worlds[i], acts[i], key)
    ensures key in worlds[i + 1].db
    ensures (exists more, moreActs, j ::
      worlds[..i + 2] <= more && acts[..i + 1] <= moreActs && RestartsEarly(more, moreActs, key, i, j))
      <==> Threatened(worlds[i + 1], key)
  {
    StepOfRun(worlds, acts, i);
    CompletionIsStored(worlds[i], acts[i], key);
    if Threatened(worlds[i + 1], key) {
      RunPrefix(worlds, acts, i + 1);
      ClockStep(worlds[i], acts[i]);
      assert worlds[..i + 2][i + 1] == worlds[i + 1];
      var more, moreActs := ThreatenedRestarts(worlds[..i + 2], acts[..i + 1], key);
      assert more[i] == worlds[..i + 2][i] == worlds[i];
      assert RestartsEarly(more, moreActs, key, i, |moreActs| - 1);
    } else {
      forall more: seq<World>, moreActs: seq<Action>, j: nat
        | worlds[..i + 2] <= more && acts[..i + 1] <= moreActs && RestartsEarly(more, moreActs, key, i, j)
        ensures false
      {
        assert more[i] == worlds[..i + 2][i] && moreActs[i] == acts[..i + 1][i];
        assert more[i + 1] == worlds[..i + 2][i + 1];
        NoRerunWithinTtl(more, moreActs, key, i, j);
        assert false;
      }
    }
  }

  /** Unless the key is robbed, that is exactly if the completion is marked, and its request
      panics or another has a second release to come. */
  lemma ThreatenedIff(worlds: seq<World>, acts: seq<Action>, key: string, i: nat)
    requires IsRun(worlds, acts) && i < |acts| && Stores(worlds[i], acts[i], key) && key !in worlds[i].robbed
    ensures key in worlds[i + 1].db && (Threatened(worlds[i + 1], key) <==> Exposes(worlds[i], acts[i]))
  {
    var w, act, w' := worlds[i], acts[i], worlds[i + 1];
    StepOfRun(worlds, acts, i);
    CompletionIsStored(w, act, key);
    assert w'.requests[act.id].key == key;
    forall id <- w'.requests | w'.requests[id].key == key && id != act.id ensures !Live(w'.requests[id].pc) {
      OthersAfterCompletion(w, act, id);
    }
    if SecondReleasePends(w, key) {
      var id :| id in w.requests && w.requests[id].key == key && w.requests[id].pc.ReleasingAgain?;
      assert w'.requests[id] == w.requests[id];
    }
  }
}
