/** What the idempotency layer guarantees over every run. */
module IdempotencyTheorems {
  import opened Common
  import opened Http
  import opened Redis
  import opened IdempotencyProtocol

  lemma {:induction false} RunKeepsInv(worlds: seq<World>, acts: seq<Action>, i: nat)
    requires IsRun(worlds, acts) && i < |worlds|
    ensures Inv(worlds[i])
  {
    if i > 0 {
      RunKeepsInv(worlds, acts, i - 1);
      assert worlds[i - 1] in worlds && Next(worlds[i - 1], acts[i - 1], worlds[i]);
      StepKeepsInv(worlds[i - 1], acts[i - 1]);
    }
  }

  lemma StepOfRun(worlds: seq<World>, acts: seq<Action>, i: nat)
    requires IsRun(worlds, acts) && i < |acts|
    ensures Inv(worlds[i]) && Prompt(worlds[i]) && Enabled(worlds[i], acts[i])
      && worlds[i + 1] == Step(worlds[i], acts[i])
  {
    RunKeepsInv(worlds, acts, i);
    assert Next(worlds[i], acts[i], worlds[i + 1]) && worlds[i] in worlds;
  }

  // ---- Exclusion ----

  /** At most one request per key is between its reservation and its completion or release, unless
      the key is robbed. */
  lemma MutualExclusion(worlds: seq<World>, acts: seq<Action>, i: nat, key: string)
    requires IsRun(worlds, acts) && i < |worlds| && key !in worlds[i].robbed
    ensures Exclusive(worlds[i], key)
  {
    RunKeepsInv(worlds, acts, i);
    var w := worlds[i];
    forall a, b | a in w.requests && b in w.requests && Live(w.requests[a].pc) && Live(w.requests[b].pc)
        && w.requests[a].key == w.requests[b].key == key
      ensures a == b
    {
      assert RequestOk(w, a) && RequestOk(w, b);
    }
  }

  /** The release of a response that is not stored takes effect and then panics, so that the
      deferred release will release once more. */
  predicate Slips(w: World, act: Action, key: string) {
    && act.Release? && Enabled(w, act) && w.requests[act.id].key == key
    && w.requests[act.id].pc == Releasing(false) && TakesEffect(act.fault) && act.panics
  }

  /** No such release has happened on the key. */
  predicate SlipFree(worlds: seq<World>, acts: seq<Action>, i: nat, key: string)
    requires i <= |acts| < |worlds|
  {
    SlipFreeFrom(worlds, acts, 0, i, key)
  }

  predicate SlipFreeFrom(worlds: seq<World>, acts: seq<Action>, n: nat, i: nat, key: string)
    requires i <= |acts| < |worlds|
  {
    forall m | n <= m < i :: !Slips(worlds[m], acts[m], key)
  }

  /** Some request on the key has a second release to come. */
  predicate SecondReleasePends(w: World, key: string) {
    exists id <- w.requests :: w.requests[id].key == key && w.requests[id].pc.ReleasingAgain?
  }

  predicate Orderly(w: World, key: string) {
    key !in w.robbed && !SecondReleasePends(w, key)
  }

  lemma StepKeepsOrderly(w: World, act: Action, key: string)
    requires Enabled(w, act) && !Slips(w, act, key) && Orderly(w, key)
    ensures Orderly(Step(w, act), key)
  {
    var w' := Step(w, act);
    forall id <- w'.requests | w'.requests[id].key == key ensures !w'.requests[id].pc.ReleasingAgain? {
      assert id in w.requests ==> w.requests[id].key == key;
    }
  }

  /** Only such a release can lead to a robbery. */
  lemma {:induction false} SlipFreeIsOrderly(worlds: seq<World>, acts: seq<Action>, i: nat, key: string)
    requires IsRun(worlds, acts) && i < |worlds| && SlipFree(worlds, acts, i, key)
    ensures Orderly(worlds[i], key)
  {
    if i > 0 {
      var w, act := worlds[i - 1], acts[i - 1];
      assert !Slips(w, act, key);
      SlipFreeIsOrderly(worlds, acts, i - 1, key);
      StepOfRun(worlds, acts, i - 1);
      StepKeepsOrderly(w, act, key);
    }
  }

  /** The action's reservation reaches the store. */
  predicate Books(w: World, act: Action, key: string) {
    && act.Reserve? && Enabled(w, act) && w.requests[act.id].key == key
    && TakesEffect(act.fault) && !Present(w.db, w.now, key)
  }

  // ---- Exclusion comes back ----

  /** Nobody on the key is live, or is about to release it a second time. */
  predicate Quiet(w: World, key: string) {
    Idle(w, key) && !SecondReleasePends(w, key)
  }

  /** What holds from a quiet world on: a robbed key has nobody live on it yet. */
  predicate Recovering(w: World, key: string) {
    !SecondReleasePends(w, key) && (key in w.robbed ==> Idle(w, key))
  }

  /** Whoever is live after the step was so before, or has just reserved the key. */
  lemma LiveStep(w: World, act: Action, id: nat)
    requires Enabled(w, act) && id in Step(w, act).requests && Live(Step(w, act).requests[id].pc)
    ensures id in w.requests && Step(w, act).requests[id].key == w.requests[id].key
    ensures Live(w.requests[id].pc) || (act.id == id && Books(w, act, w.requests[id].key))
  {
  }

  lemma StepKeepsRecovering(w: World, act: Action, key: string)
    requires Enabled(w, act) && !Slips(w, act, key) && Recovering(w, key)
    ensures Recovering(Step(w, act), key)
  {
    var w' := Step(w, act);
    forall id <- w'.requests | w'.requests[id].key == key ensures !w'.requests[id].pc.ReleasingAgain? {
      assert id in w.requests ==> w.requests[id].key == key;
    }
    if key in w'.robbed {
      assert key in w.robbed;
      forall id <- w'.requests | w'.requests[id].key == key ensures !Live(w'.requests[id].pc) {
        if Live(w'.requests[id].pc) {
          LiveStep(w, act, id);
        }
      }
    }
  }

  lemma RecoveringStep(worlds: seq<World>, acts: seq<Action>, i: nat, key: string)
    requires Follows(worlds, acts) && i < |acts| && !Slips(worlds[i], acts[i], key) && Recovering(worlds[i], key)
    ensures Recovering(worlds[i + 1], key)
  {
    assert Next(worlds[i], acts[i], worlds[i + 1]);
    StepKeepsRecovering(worlds[i], acts[i], key);
  }

  lemma {:induction false} RecoveringStays(worlds: seq<World>, acts: seq<Action>, n: nat, i: nat, key: string)
    requires Follows(worlds, acts) && n <= i < |worlds| && Recovering(worlds[n], key)
    requires SlipFreeFrom(worlds, acts, n, i, key)
    ensures Recovering(worlds[i], key)
    decreases i
  {
    if n < i {
      RecoveringStays(worlds, acts, n, i - 1, key);
      RecoveringStep(worlds, acts, i - 1, key);
    }
  }

  /** Once the key has been quiet, whatever happened before, exclusion is back until the next such
      release, and the first reservation takes the key off the robbed ones. */
  lemma ExclusionReturns(worlds: seq<World>, acts: seq<Action>, n: nat, i: nat, key: string)
    requires IsRun(worlds, acts) && n <= i < |worlds| && Quiet(worlds[n], key)
    requires SlipFreeFrom(worlds, acts, n, i, key)
    ensures Exclusive(worlds[i], key) && (!Idle(worlds[i], key) ==> key !in worlds[i].robbed)
  {
    RecoveringStays(worlds, acts, n, i, key);
    if key !in worlds[i].robbed {
      MutualExclusion(worlds, acts, i, key);
    }
  }

  lemma BookingOrders(w: World, act: Action, key: string)
    requires Books(w, act, key) && Recovering(w, key)
    ensures Orderly(Step(w, act), key)
  {
    forall id <- w.requests | w.requests[id].key == key ensures !w.requests[id].pc.ReleasingAgain? {
    }
  }

  /** And from that reservation on every guarantee for keys that are not robbed is back. */
  lemma {:induction false} UnrobbedReturns(worlds: seq<World>, acts: seq<Action>, n: nat, b: nat, i: nat, key: string)
    requires Follows(worlds, acts) && n <= b < i < |worlds| && Quiet(worlds[n], key) && Books(worlds[b], acts[b], key)
    requires SlipFreeFrom(worlds, acts, n, i, key)
    ensures Orderly(worlds[i], key)
    decreases i
  {
    assert Next(worlds[i - 1], acts[i - 1], worlds[i]) && !Slips(worlds[i - 1], acts[i - 1], key);
    if b + 1 == i {
      RecoveringStays(worlds, acts, n, b, key);
      BookingOrders(worlds[b], acts[b], key);
    } else {
      UnrobbedReturns(worlds, acts, n, b, i - 1, key);
      StepKeepsOrderly(worlds[i - 1], acts[i - 1], key);
    }
  }

  // ---- Completed responses ----

  /** The action stores a completion under the key. */
  predicate Stores(w: World, act: Action, key: string) {
    && act.CompleteSet? && Enabled(w, act) && TakesEffect(act.fault)
    && w.requests[act.id].key == key && Present(w.db, w.now, key)
  }

  /** The action reserves the key and starts its handler. */
  predicate Starts(w: World, act: Action, key: string) {
    && act.Reserve? && Enabled(w, act) && w.requests[act.id].key == key
    && Step(w, act).requests[act.id].pc.Handling?
  }

  function StoredAt(w: World, act: Action): Envelope
    requires act.CompleteSet? && Enabled(w, act)
  {
    Response(w.requests[act.id].pc.existing, w.requests[act.id].calls, w.now, w.ttl)
  }

  /** The request may still store a response. */
  predicate MayStore(pc: Pc) {
    pc.Handling? || pc.CompletingGet? || pc.CompletingSet?
  }

  /** Nobody can touch the record: no request on the key may still store a response, and none
      may still release it, if the script takes it for a reservation. */
  predicate AtRest(w: World, key: string)
    requires key in w.db
  {
    forall id <- w.requests | w.requests[id].key == key ::
      && !MayStore(w.requests[id].pc)
      && (w.requests[id].pc.Releasing? || w.requests[id].pc.ReleasingAgain? ==> !ScriptFinds(w.db[key].env))
  }

  lemma RecordSurvivesStep(w: World, act: Action, key: string)
    requires Enabled(w, act) && Present(w.db, w.now, key) && AtRest(w, key)
    ensures key in Step(w, act).db && Step(w, act).db[key] == w.db[key]
  {
  }

  lemma RequestStaysAtRest(w: World, act: Action, key: string, id: nat)
    requires Enabled(w, act) && Present(w.db, w.now, key) && AtRest(w, key)
    requires id in Step(w, act).requests && Step(w, act).requests[id].key == key
    ensures !MayStore(Step(w, act).requests[id].pc)
    ensures var pc := Step(w, act).requests[id].pc;
      pc.Releasing? || pc.ReleasingAgain? ==> !ScriptFinds(w.db[key].env)
  {
    assert id in w.requests ==> w.requests[id].key == key;
  }

  lemma RestSurvivesStep(w: World, act: Action, key: string)
    requires Enabled(w, act) && Present(w.db, w.now, key) && AtRest(w, key)
    ensures key in Step(w, act).db && AtRest(Step(w, act), key)
  {
    RecordSurvivesStep(w, act, key);
    forall id <- Step(w, act).requests | Step(w, act).requests[id].key == key
      ensures !MayStore(Step(w, act).requests[id].pc)
      ensures var pc := Step(w, act).requests[id].pc;
        pc.Releasing? || pc.ReleasingAgain? ==> !ScriptFinds(Step(w, act).db[key].env)
    {
      RequestStaysAtRest(w, act, key, id);
    }
  }

  lemma ClockStep(w: World, act: Action)
    requires Enabled(w, act)
    ensures Step(w, act).now >= w.now && Step(w, act).ttl == w.ttl
  {
  }

  /** A record at rest stays as it is until its deadline. */
  lemma {:induction false} RecordStays(worlds: seq<World>, acts: seq<Action>, key: string, entry: Entry, i: nat, j: nat)
    requires IsRun(worlds, acts) && i <= j < |worlds|
    requires key in worlds[i].db && worlds[i].db[key] == entry && AtRest(worlds[i], key)
    ensures worlds[i].now <= worlds[j].now && worlds[j].ttl == worlds[i].ttl
    ensures worlds[j].now < entry.deadline ==>
      key in worlds[j].db && worlds[j].db[key] == entry && AtRest(worlds[j], key)
    decreases j
  {
    if i < j {
      RecordStays(worlds, acts, key, entry, i, j - 1);
      StepOfRun(worlds, acts, j - 1);
      ClockStep(worlds[j - 1], acts[j - 1]);
      if worlds[j].now < entry.deadline {
        RecordSurvivesStep(worlds[j - 1], acts[j - 1], key);
        RestSurvivesStep(worlds[j - 1], acts[j - 1], key);
      }
    }
  }

  /** A completion is stored as its handler gave it, for a full time to live. */
  lemma CompletionIsStored(w: World, act: Action, key: string)
    requires Stores(w, act, key)
    ensures key in Step(w, act).db && Step(w, act).db[key] == Entry(StoredAt(w, act), w.now + w.ttl)
  {
  }

  /** A stored completion that is at rest is untouched until its time to live has passed. */
  lemma CompletionIsImmutable(worlds: seq<World>, acts: seq<Action>, key: string, i: nat, j: nat)
    requires IsRun(worlds, acts) && i < j < |worlds| && Stores(worlds[i], acts[i], key)
    requires key in worlds[i + 1].db ==> AtRest(worlds[i + 1], key)
    ensures worlds[i].now <= worlds[j].now && worlds[j].ttl == worlds[i].ttl
    ensures worlds[j].now < worlds[i].now + worlds[i].ttl ==>
      key in worlds[j].db && worlds[j].db[key] == Entry(StoredAt(worlds[i], acts[i]), worlds[i].now + worlds[i].ttl)
  {
    StepOfRun(worlds, acts, i);
    ClockStep(worlds[i], acts[i]);
    CompletionIsStored(worlds[i], acts[i], key);
    RecordStays(worlds, acts, key, worlds[i + 1].db[key], i + 1, j);
  }

  /** A completion that the release script takes for a reservation, while a release of its key
      is still to come: its own request panics, or another has a second release to come. */
  predicate Exposes(w: World, act: Action)
    requires act.CompleteSet? && Enabled(w, act)
  {
    !Benign(StoredAt(w, act)) && (act.panics || SecondReleasePends(w, w.requests[act.id].key))
  }

  lemma OthersAfterCompletion(w: World, act: Action, id: nat)
    requires Inv(w) && act.CompleteSet? && Enabled(w, act) && Unrobbed(w, act.id)
    requires id in w.requests && id != act.id && w.requests[id].key == w.requests[act.id].key
    ensures !Live(w.requests[id].pc)
  {
    OwnerIsAlone(w, act.id);
  }

  /** Unless its key is robbed, a completion is at rest exactly if it is not exposed. */
  lemma CompletionRestsIff(w: World, act: Action, key: string)
    requires Inv(w) && Stores(w, act, key) && key !in w.robbed
    ensures key in Step(w, act).db && (AtRest(Step(w, act), key) <==> !Exposes(w, act))
  {
    CompletionIsStored(w, act, key);
    var w' := Step(w, act);
    if SecondReleasePends(w, key) {
      var id :| id in w.requests && w.requests[id].key == key && w.requests[id].pc.ReleasingAgain?;
      assert w'.requests[id] == w.requests[id];
    }
    assert w'.requests[act.id].key == key;
    forall id <- w'.requests | w'.requests[id].key == key && id != act.id ensures !Live(w'.requests[id].pc) {
      OthersAfterCompletion(w, act, id);
    }
  }

  /** The one way for a request to lose its own completion early: it panics right after storing
      it, and the deferred release deletes the record. It does so exactly for marked completions. */
  lemma PanicAfterCompletion(w: World, id: nat, key: string)
    requires Stores(w, CompleteSet(id, Clean, true), key)
    ensures var panicked := Step(w, CompleteSet(id, Clean, true));
      Enabled(panicked, Release(id, Clean, false)) &&
      (key in Step(panicked, Release(id, Clean, false)).db <==> Benign(StoredAt(w, CompleteSet(id, Clean, true))))
  {
    CompletionIsStored(w, CompleteSet(id, Clean, true), key);
  }

  // ---- Replays ----

  /** A request that has its answer is left alone. */
  lemma {:induction false} AnswersAreFinal(worlds: seq<World>, acts: seq<Action>, i: nat, j: nat, id: nat)
    requires IsRun(worlds, acts) && i <= j < |worlds| && id in worlds[i].requests
    requires worlds[i].requests[id].pc.Finished?
    ensures id in worlds[j].requests && worlds[j].requests[id] == worlds[i].requests[id]
    decreases j
  {
    if i < j {
      AnswersAreFinal(worlds, acts, i, j - 1, id);
      assert Next(worlds[j - 1], acts[j - 1], worlds[j]);
    }
  }

  /** The action answers its request from the record under its key, with what is stored there. */
  predicate Replays(w: World, act: Action, key: string) {
    && act.Fetch? && Enabled(w, act) && w.requests[act.id].key == key
    && Answered(Step(w, act), act.id)
  }

  /** While the key is not robbed, what is replayed is the response of the request that owns it. */
  lemma ReplaySource(worlds: seq<World>, acts: seq<Action>, m: nat, key: string)
    requires IsRun(worlds, acts) && m < |acts| && Replays(worlds[m], acts[m], key) && key !in worlds[m].robbed
    ensures key in worlds[m].owner && worlds[m + 1].requests[acts[m].id].source == Some(worlds[m].owner[key])
    ensures Sourced(worlds[m + 1], acts[m].id, worlds[m].owner[key])
  {
    StepOfRun(worlds, acts, m);
    RunKeepsInv(worlds, acts, m + 1);
    assert Rooted(worlds[m], key) && RequestOk(worlds[m + 1], acts[m].id);
  }

  /** Every replay carries, then and ever after, the status, the bytes and the kept headers that
      the handler of one earlier request, with the same key and the same hash, gave its writer. */
  lemma CacheAgreement(worlds: seq<World>, acts: seq<Action>, m: nat, i: nat, key: string)
    requires IsRun(worlds, acts) && m < i < |worlds| && Replays(worlds[m], acts[m], key) && key !in worlds[m].robbed
    ensures acts[m].id in worlds[i].requests && worlds[i].requests[acts[m].id] == worlds[m + 1].requests[acts[m].id]
    ensures key in worlds[m].owner && worlds[m].owner[key] in worlds[i].requests
    ensures var request, owner := worlds[i].requests[acts[m].id], worlds[i].requests[worlds[m].owner[key]];
      && Answered(worlds[i], acts[m].id)
      && owner.key == request.key && owner.hash == request.hash && !owner.pc.Handling?
      && var outcome := request.pc.outcome;
        && outcome.status == Effective(StatusOf(owner.calls))
        && outcome.body == BytesOf(owner.calls) == ApplyAll(FRESH, owner.calls).wire.body
        && ApplyAll(FRESH, owner.calls).wire.statuses == StatusesOf(owner.calls)
        && forall name ::
          (if name in outcome.headers then Some(outcome.headers[name]) else None)
          == if name in SKIPPED then None else FirstValue(ValuesOf(owner.calls, name))
  {
    ReplaySource(worlds, acts, m, key);
    AnswersAreFinal(worlds, acts, m + 1, i, acts[m].id);
    RunKeepsInv(worlds, acts, i);
    assert RequestOk(worlds[i], acts[m].id);
    var owner := worlds[i].requests[worlds[m].owner[key]];
    RecorderIsFaithful(owner.calls);
    CapturedIsFirstValues(ApplyAll(FRESH, owner.calls).wire.header, owner.calls);
  }

  /** A finished handler's calls, and so what is replayed for it, never change again. */
  lemma {:induction false} CallsAreFinal(worlds: seq<World>, acts: seq<Action>, i: nat, j: nat, id: nat)
    requires IsRun(worlds, acts) && i <= j < |worlds| && id in worlds[i].requests
    requires Done(worlds[i].requests[id].pc)
    ensures id in worlds[j].requests && worlds[j].requests[id].calls == worlds[i].requests[id].calls
    ensures Done(worlds[j].requests[id].pc)
    decreases j
  {
    if i < j {
      CallsAreFinal(worlds, acts, i, j - 1, id);
      assert Next(worlds[j - 1], acts[j - 1], worlds[j]);
    }
  }

  // ---- Hashes ----

  /** The action tells its request that the record under the key is in flight, or what it holds. */
  predicate Learns(w: World, act: Action, key: string) {
    && act.Fetch? && Enabled(w, act) && w.requests[act.id].key == key
    && var outcome := Step(w, act).requests[act.id].pc.outcome; outcome.InProgress? || outcome.Replayed?
  }

  /** The record under the key is there in every world of a stretch of a run. */
  predicate Lives(worlds: seq<World>, key: string, i: nat, j: nat) {
    forall m | i <= m <= j && m < |worlds| :: Present(worlds[m].db, worlds[m].now, key)
  }

  /** A key is robbed only when its record goes. */
  lemma PresentStaysUnrobbed(w: World, act: Action, key: string)
    requires Enabled(w, act) && key !in w.robbed && key in Step(w, act).db
    ensures key !in Step(w, act).robbed
  {
  }

  /** The key is the request's. */
  predicate Belongs(w: World, key: string, id: nat, hash: string) {
    && key !in w.robbed && key in w.owner && w.owner[key] == id
    && id in w.requests && w.requests[id].hash == hash
  }

  lemma StepKeepsOwner(w: World, act: Action, key: string, id: nat, hash: string)
    requires Enabled(w, act) && Present(w.db, w.now, key) && key in Step(w, act).db && Belongs(w, key, id, hash)
    ensures Belongs(Step(w, act), key, id, hash)
  {
    PresentStaysUnrobbed(w, act, key);
  }

  lemma BookingOwns(w: World, act: Action, key: string)
    requires Books(w, act, key) && key !in Step(w, act).robbed
    ensures Belongs(Step(w, act), key, act.id, w.requests[act.id].hash)
  {
  }

  lemma {:induction false} KeyKeepsOwner(worlds: seq<World>, acts: seq<Action>, key: string, i: nat, j: nat)
    requires Follows(worlds, acts) && i < j < |worlds|
    requires Books(worlds[i], acts[i], key) && Lives(worlds, key, i + 1, j) && key !in worlds[i + 1].robbed
    ensures Belongs(worlds[j], key, acts[i].id, worlds[i].requests[acts[i].id].hash)
    decreases j
  {
    assert Next(worlds[j - 1], acts[j - 1], worlds[j]);
    if i + 1 == j {
      BookingOwns(worlds[i], acts[i], key);
    } else {
      assert Present(worlds[j - 1].db, worlds[j - 1].now, key) && Present(worlds[j].db, worlds[j].now, key);
      KeyKeepsOwner(worlds, acts, key, i, j - 1);
      StepKeepsOwner(worlds[j - 1], acts[j - 1], key, acts[i].id, worlds[i].requests[acts[i].id].hash);
    }
  }

  /** Some request on the key is about to store under another hash: it has read a record with
      that hash and still has to write. */
  predicate StrangerStores(w: World, key: string, hash: string) {
    exists id <- w.requests :: w.requests[id].key == key
      && w.requests[id].pc.CompletingSet? && w.requests[id].pc.existing.hash != hash
  }

  /** The key's record has the hash, and nobody is about to store under another. */
  predicate Bound(w: World, key: string, hash: string) {
    key in w.db && w.db[key].env.hash == hash && !StrangerStores(w, key, hash)
  }

  lemma StepKeepsStored(w: World, act: Action, key: string, hash: string)
    requires Enabled(w, act) && Present(w.db, w.now, key) && key in Step(w, act).db && Bound(w, key, hash)
    ensures Step(w, act).db[key].env.hash == hash
  {
  }

  lemma StepKeepsBound(w: World, act: Action, key: string, hash: string)
    requires Enabled(w, act) && Present(w.db, w.now, key) && key in Step(w, act).db && Bound(w, key, hash)
    ensures Bound(Step(w, act), key, hash)
  {
    StepKeepsStored(w, act, key, hash);
    var w' := Step(w, act);
    forall id <- w'.requests | w'.requests[id].key == key && w'.requests[id].pc.CompletingSet?
      ensures w'.requests[id].pc.existing.hash == hash
    {
      assert id in w.requests && w.requests[id].key == key;
    }
  }

  lemma BookingBinds(w: World, act: Action, key: string)
    requires Books(w, act, key) && !StrangerStores(w, key, w.requests[act.id].hash)
    ensures Bound(Step(w, act), key, w.requests[act.id].hash)
  {
    var w' := Step(w, act);
    forall id <- w'.requests | w'.requests[id].key == key && w'.requests[id].pc.CompletingSet?
      ensures w'.requests[id].pc.existing.hash == w.requests[act.id].hash
    {
      assert w'.requests[id] == w.requests[id];
    }
  }

  lemma {:induction false} BindingStays(worlds: seq<World>, acts: seq<Action>, key: string, i: nat, j: nat)
    requires Follows(worlds, acts) && i < j < |worlds| && Books(worlds[i], acts[i], key)
    requires Lives(worlds, key, i + 1, j) && !StrangerStores(worlds[i], key, worlds[i].requests[acts[i].id].hash)
    ensures Bound(worlds[j], key, worlds[i].requests[acts[i].id].hash)
    decreases j
  {
    assert Next(worlds[j - 1], acts[j - 1], worlds[j]);
    if i + 1 == j {
      BookingBinds(worlds[i], acts[i], key);
    } else {
      assert Present(worlds[j - 1].db, worlds[j - 1].now, key) && Present(worlds[j].db, worlds[j].now, key);
      BindingStays(worlds, acts, key, i, j - 1);
      StepKeepsBound(worlds[j - 1], acts[j - 1], key, worlds[i].requests[acts[i].id].hash);
    }
  }

  /** As long as the record lives it keeps the hash it was reserved with, however late a handler
      and however often a release, if nobody was about to store under another hash. */
  lemma RecordKeepsHash(worlds: seq<World>, acts: seq<Action>, key: string, i: nat, j: nat)
    requires Follows(worlds, acts) && i < j < |worlds| && Books(worlds[i], acts[i], key)
    requires Lives(worlds, key, i + 1, j) && !StrangerStores(worlds[i], key, worlds[i].requests[acts[i].id].hash)
    ensures key in worlds[j].db && worlds[j].db[key].env.hash == worlds[i].requests[acts[i].id].hash
  {
    BindingStays(worlds, acts, key, i, j);
  }

  /** So while it lives, in flight or completed, no handler starts for the key, and only a
      request with that hash learns what the record holds. */
  lemma HashBinding(worlds: seq<World>, acts: seq<Action>, key: string, i: nat, j: nat)
    requires Follows(worlds, acts) && i < j < |acts| && Books(worlds[i], acts[i], key)
    requires Lives(worlds, key, i + 1, j) && !StrangerStores(worlds[i], key, worlds[i].requests[acts[i].id].hash)
    ensures !Starts(worlds[j], acts[j], key)
    ensures Learns(worlds[j], acts[j], key) ==>
      worlds[j].requests[acts[j].id].hash == worlds[i].requests[acts[i].id].hash
  {
    assert Present(worlds[j].db, worlds[j].now, key);
    RecordKeepsHash(worlds, acts, key, i, j);
  }

  /** A key that is not robbed is reserved with nobody live on it. */
  lemma UnrobbedIsIdle(w: World, act: Action, key: string)
    requires Inv(w) && Prompt(w) && Books(w, act, key) && key !in Step(w, act).robbed
    ensures Idle(w, key)
  {
    forall id <- w.requests | w.requests[id].key == key ensures !Live(w.requests[id].pc) {
      assert RequestOk(w, id);
    }
  }

  /** So in a run nobody is about to store under another hash then, and the record keeps its
      owner too. */
  lemma RecordKeepsOwner(worlds: seq<World>, acts: seq<Action>, key: string, i: nat, j: nat)
    requires IsRun(worlds, acts) && i < j < |worlds| && Books(worlds[i], acts[i], key)
    requires Lives(worlds, key, i + 1, j) && key !in worlds[i + 1].robbed
    ensures Belongs(worlds[j], key, acts[i].id, worlds[i].requests[acts[i].id].hash)
    ensures key in worlds[j].db && worlds[j].db[key].env.hash == worlds[i].requests[acts[i].id].hash
  {
    StepOfRun(worlds, acts, i);
    UnrobbedIsIdle(worlds[i], acts[i], key);
    KeyKeepsOwner(worlds, acts, key, i, j);
    RecordKeepsHash(worlds, acts, key, i, j);
  }
}
