/** The two ways out of the idempotency layer's guarantees: a handler that outlives its
    reservation, and a release that panics after it took effect, which is then made twice. */
module IdempotencyLimits {
  import opened Common
  import opened Http
  import opened Redis
  import opened IdempotencyProtocol
  import opened IdempotencyTheorems
  import opened IdempotencyRestart

  /** Two hashes, each of 64 hexadecimal digits. */
  function OneHash(): string {
    seq(64, i => '0')
  }

  function OtherHash(): string {
    seq(64, i => '1')
  }

  lemma HashesDiffer()
    ensures OneHash() != OtherHash()
  {
    assert OneHash()[0] == '0' && OtherHash()[0] == '1';
  }

  /** What the recorder holds after one write. */
  const HANDLED: Recorder := Recorder(Wire(map[], [200], map[], [7]), 200, true, [7])

  // ---- A release that panics after it took effect ----

  /** Such a release frees the key, and its request has another release to come. */
  lemma SlipFreesKey(w: World, act: Action, key: string)
    requires Inv(w) && Prompt(w) && Slips(w, act, key) && key !in w.robbed
    ensures var w' := Step(w, act);
      key !in w'.db && act.id in w'.requests && w'.requests[act.id].key == key && w'.requests[act.id].pc.ReleasingAgain?
  {
    assert RequestOk(w, act.id);
  }

  /** The worlds go on, the clock standing still, without another such release; a run remains one. */
  ghost predicate GoesOnCleanly(worlds: seq<World>, acts: seq<Action>, more: seq<World>, moreActs: seq<Action>)
    requires |worlds| == |acts| + 1
  {
    && Follows(more, moreActs) && worlds <= more && acts <= moreActs
    && more[|moreActs|].now == worlds[|acts|].now && more[|moreActs|].ttl == worlds[|acts|].ttl
    && (IsRun(worlds, acts) ==> IsRun(more, moreActs))
    && forall m, key | |acts| <= m < |moreActs| :: !Slips(more[m], moreActs[m], key)
  }

  /** One world more. */
  lemma Append(worlds: seq<World>, acts: seq<Action>, act: Action) returns (more: seq<World>, moreActs: seq<Action>)
    requires Follows(worlds, acts) && Enabled(worlds[|acts|], act)
    ensures Follows(more, moreActs) && more == worlds + [Step(worlds[|acts|], act)] && moreActs == acts + [act]
  {
    more, moreActs := worlds + [Step(worlds[|acts|], act)], acts + [act];
    forall i | 0 <= i < |moreActs| ensures Next(more[i], moreActs[i], more[i + 1]) {
      if i < |acts| {
        assert Next(worlds[i], acts[i], worlds[i + 1]);
      }
    }
  }

  lemma CleanlyTwice(worlds: seq<World>, acts: seq<Action>, more: seq<World>, moreActs: seq<Action>,
                     most: seq<World>, mostActs: seq<Action>)
    requires |worlds| == |acts| + 1 && GoesOnCleanly(worlds, acts, more, moreActs)
    requires GoesOnCleanly(more, moreActs, most, mostActs)
    ensures GoesOnCleanly(worlds, acts, most, mostActs)
  {
    forall m, key | |acts| <= m < |mostActs| ensures !Slips(most[m], mostActs[m], key) {
      if m < |moreActs| {
        assert most[m] == more[m] && mostActs[m] == moreActs[m];
      }
    }
  }

  /** One more step. */
  lemma Continue(worlds: seq<World>, acts: seq<Action>, more: seq<World>, moreActs: seq<Action>, act: Action)
    returns (most: seq<World>, mostActs: seq<Action>)
    requires |worlds| == |acts| + 1 && GoesOnCleanly(worlds, acts, more, moreActs)
    requires Enabled(more[|moreActs|], act) && !act.Tick? && forall key :: !Slips(more[|moreActs|], act, key)
    ensures GoesOnCleanly(worlds, acts, most, mostActs)
    ensures most == more + [Step(more[|moreActs|], act)] && mostActs == moreActs + [act]
  {
    most, mostActs := Append(more, moreActs, act);
    if IsRun(more, moreActs) {
      assert more[|moreActs|] in more;
      StepKeepsPrompt(more[|moreActs|], act);
    }
    forall m, key | |acts| <= m < |mostActs| ensures !Slips(most[m], mostActs[m], key) {
      if m < |moreActs| {
        assert most[m] == more[m] && mostActs[m] == moreActs[m];
      }
    }
  }

  /** A new request takes a key that is free, or whose record has lapsed. */
  lemma NewHandler(worlds: seq<World>, acts: seq<Action>, key: string, hash: string)
    returns (more: seq<World>, moreActs: seq<Action>, id: nat)
    requires Follows(worlds, acts) && !Present(worlds[|acts|].db, worlds[|acts|].now, key)
    ensures GoesOnCleanly(worlds, acts, more, moreActs)
    ensures id !in worlds[|acts|].requests
    ensures var n := |acts| + 1;
      && |moreActs| == n + 1 && Books(more[n], moreActs[n], key)
      && moreActs[n].id == id && more[n].requests[id].hash == hash
    ensures var w, w' := worlds[|acts|], more[|moreActs|];
      && w'.requests == w.requests[id := Request(key, hash, Handling(FRESH), [], w.now + w.ttl, None)]
      && w'.db == w.db[key := Entry(Reservation(hash, w.now, w.ttl), w.now + w.ttl)]
      && w'.owner == w.owner[key := id]
  {
    var w := worlds[|acts|];
    id := FreshId(w.requests.Keys);
    more, moreActs := Continue(worlds, acts, worlds, acts, Arrive(id, key, hash));
    more, moreActs := Continue(worlds, acts, more, moreActs, Reserve(id, Clean));
  }

  /** The second release takes another request's reservation. */
  lemma SecondReleaseRobs(worlds: seq<World>, acts: seq<Action>, key: string, stray: nat)
    returns (more: seq<World>, moreActs: seq<Action>)
    requires Follows(worlds, acts) && Present(worlds[|acts|].db, worlds[|acts|].now, key)
    requires worlds[|acts|].db[key].env.state.InFlight?
    requires stray in worlds[|acts|].requests && worlds[|acts|].requests[stray].key == key
    requires worlds[|acts|].requests[stray].pc.ReleasingAgain?
    ensures GoesOnCleanly(worlds, acts, more, moreActs)
    ensures var w, w' := worlds[|acts|], more[|moreActs|];
      && key !in w'.db && w'.requests.Keys == w.requests.Keys
      && forall id <- w.requests | id != stray :: w'.requests[id] == w.requests[id]
  {
    more, moreActs := Continue(worlds, acts, worlds, acts, Release(stray, Clean, false));
  }

  /** Two handlers run on the key: the first one's reservation is gone, the second one holds it. */
  predicate TwoHandlers(w: World, key: string, first: nat, second: nat) {
    && first in w.requests && second in w.requests && first != second
    && w.requests[first].key == w.requests[second].key == key
    && w.requests[first].hash == OneHash() && w.requests[second].hash == OtherHash()
    && w.requests[first].pc == w.requests[second].pc == Handling(FRESH)
    && w.requests[first].calls == w.requests[second].calls == []
    && key in w.db && w.db[key] == Entry(Reservation(OtherHash(), w.now, w.ttl), w.now + w.ttl)
    && key in w.owner && w.owner[key] == second
  }

  lemma StrayLetsTwoIn(worlds: seq<World>, acts: seq<Action>, key: string, stray: nat)
    returns (more: seq<World>, moreActs: seq<Action>, first: nat, second: nat)
    requires Follows(worlds, acts) && key !in worlds[|acts|].db
    requires stray in worlds[|acts|].requests && worlds[|acts|].requests[stray].key == key
    requires worlds[|acts|].requests[stray].pc.ReleasingAgain?
    ensures GoesOnCleanly(worlds, acts, more, moreActs) && TwoHandlers(more[|moreActs|], key, first, second)
  {
    var a, aActs;
    a, aActs, first := NewHandler(worlds, acts, key, OneHash());
    var b, bActs := SecondReleaseRobs(a, aActs, key, stray);
    CleanlyTwice(worlds, acts, a, aActs, b, bActs);
    more, moreActs, second := NewHandler(b, bActs, key, OtherHash());
    CleanlyTwice(worlds, acts, b, bActs, more, moreActs);
  }

  /** From any such release the run can go on, without another, to two handlers on the key. */
  lemma SlipLetsTwoIn(worlds: seq<World>, acts: seq<Action>, key: string)
    returns (more: seq<World>, moreActs: seq<Action>, first: nat, second: nat)
    requires IsRun(worlds, acts) && acts != []
    requires Slips(worlds[|acts| - 1], acts[|acts| - 1], key) && key !in worlds[|acts| - 1].robbed
    ensures GoesOnCleanly(worlds, acts, more, moreActs) && TwoHandlers(more[|moreActs|], key, first, second)
  {
    StepOfRun(worlds, acts, |acts| - 1);
    SlipFreesKey(worlds[|acts| - 1], acts[|acts| - 1], key);
    more, moreActs, first, second := StrayLetsTwoIn(worlds, acts, key, acts[|acts| - 1].id);
  }

  /** A handler whose response is stored ends and reads its record, and has only to store it. */
  lemma AboutToStore(worlds: seq<World>, acts: seq<Action>, key: string, id: nat)
    returns (more: seq<World>, moreActs: seq<Action>)
    requires Follows(worlds, acts) && Present(worlds[|acts|].db, worlds[|acts|].now, key)
    requires id in worlds[|acts|].requests && worlds[|acts|].requests[id].key == key
    requires worlds[|acts|].requests[id].pc.Handling? && ShouldCache(worlds[|acts|].requests[id].pc.recorder.status)
    ensures GoesOnCleanly(worlds, acts, more, moreActs)
    ensures var w := worlds[|acts|];
      more[|moreActs|] == Goto(w, id, CompletingSet(w.db[key].env))
  {
    more, moreActs := Continue(worlds, acts, worlds, acts, Return(id));
    more, moreActs := Continue(worlds, acts, more, moreActs, CompleteGet(id, Clean));
  }

  /** The first handler writes, ends, and has only to store its response. */
  lemma FirstAboutToStore(worlds: seq<World>, acts: seq<Action>, key: string, first: nat, second: nat)
    returns (more: seq<World>, moreActs: seq<Action>)
    requires Follows(worlds, acts) && TwoHandlers(worlds[|acts|], key, first, second)
    ensures GoesOnCleanly(worlds, acts, more, moreActs)
    ensures var w := worlds[|acts|]; more[|moreActs|] == w.(requests := w.requests[first :=
      w.requests[first].(pc := CompletingSet(w.db[key].env), calls := [Write([7])])])
  {
    var a, aActs := Continue(worlds, acts, worlds, acts, Handle(first, Write([7])));
    assert [] + [Write([7])] == [Write([7])];
    more, moreActs := AboutToStore(a, aActs, key, first);
    CleanlyTwice(worlds, acts, a, aActs, more, moreActs);
  }

  /** The first handler then completes the second one's record with its own response. */
  lemma FirstCompletesSecond(worlds: seq<World>, acts: seq<Action>, key: string, first: nat, second: nat)
    returns (more: seq<World>, moreActs: seq<Action>)
    requires Follows(worlds, acts) && TwoHandlers(worlds[|acts|], key, first, second)
    ensures GoesOnCleanly(worlds, acts, more, moreActs)
    ensures var w, w' := worlds[|acts|], more[|moreActs|];
      && w'.owner == w.owner && second in w'.requests && w'.requests[second] == w.requests[second]
      && first in w'.requests && w'.requests[first].key == key && w'.requests[first].hash == OneHash()
      && w'.requests[first].calls == [Write([7])]
      && key in w'.db
      && w'.db[key] == Entry(Response(Reservation(OtherHash(), w.now, w.ttl), [Write([7])], w.now, w.ttl),
                             w.now + w.ttl)
  {
    more, moreActs := FirstAboutToStore(worlds, acts, key, first, second);
    more, moreActs := Continue(worlds, acts, more, moreActs, CompleteSet(first, Clean, false));
  }

  lemma OneWrite()
    ensures BytesOf([Write([7])]) == [7] && StatusOf([Write([7])]) == 200
    ensures ApplyAll(FRESH, [Write([7])]) == HANDLED && Captured(HANDLED.wire.header) == map[]
  {
    BytesOfOne(Write([7]));
    assert [Write([7])][..0] == [];
  }

  /** A request was replayed the bytes of another whose body had a different hash. */
  predicate Misreplayed(w: World, key: string, writer: nat, reader: nat) {
    && writer in w.requests && reader in w.requests
    && w.requests[writer].key == w.requests[reader].key == key && w.requests[writer].hash != w.requests[reader].hash
    && Answered(w, reader) && w.requests[reader].pc.outcome.body == BytesOf(w.requests[writer].calls) != []
  }

  /** What the action replays is not the response of the request that owns the key. */
  predicate WrongReplay(w: World, act: Action, key: string) {
    && Replays(w, act, key)
    && !(key in w.owner && Sourced(Step(w, act), act.id, w.owner[key]))
  }

  /** And a third request, with the second one's body, has that response replayed to it. */
  lemma ThirdIsReplayedFirst(worlds: seq<World>, acts: seq<Action>, key: string, first: nat, second: nat)
    returns (more: seq<World>, moreActs: seq<Action>, third: nat)
    requires Follows(worlds, acts) && TwoHandlers(worlds[|acts|], key, first, second)
    ensures GoesOnCleanly(worlds, acts, more, moreActs) && |acts| < |moreActs|
    ensures Misreplayed(more[|moreActs|], key, first, third)
    ensures WrongReplay(more[|moreActs| - 1], moreActs[|moreActs| - 1], key)
  {
    var a, aActs := FirstCompletesSecond(worlds, acts, key, first, second);
    var w := a[|aActs|];
    OneWrite();
    HashesDiffer();
    third := FreshId(w.requests.Keys);
    more, moreActs := Continue(worlds, acts, a, aActs, Arrive(third, key, OtherHash()));
    more, moreActs := Continue(worlds, acts, more, moreActs, Reserve(third, Clean));
    more, moreActs := Continue(worlds, acts, more, moreActs, Fetch(third, Clean));
  }

  /** From the empty store a handler starts, and comes to answer 500. */
  lemma HandlerStarts(ttl: Ttl, key: string) returns (worlds: seq<World>, acts: seq<Action>)
    ensures IsRun(worlds, acts) && |acts| == 2 && worlds[0].ttl == ttl && worlds[0].now == 0
    ensures worlds[2] == World(ttl, 0, map[key := Entry(Reservation(OneHash(), 0, ttl), ttl)],
      map[0 := Request(key, OneHash(), Handling(FRESH), [], ttl, None)], map[key := 0], {})
  {
    var empty := World(ttl, 0, map[], map[], map[], {});
    worlds, acts := Extend([empty], [], Arrive(0, key, OneHash()));
    worlds, acts := Extend(worlds, acts, Reserve(0, Clean));
  }

  lemma HandlerFails(ttl: Ttl, key: string) returns (worlds: seq<World>, acts: seq<Action>)
    ensures IsRun(worlds, acts) && |acts| == 4 && worlds[0].ttl == ttl && worlds[0].now == 0
    ensures worlds[4] == World(ttl, 0, map[key := Entry(Reservation(OneHash(), 0, ttl), ttl)],
      map[0 := Request(key, OneHash(), Releasing(false), [WriteHeader(500)], ttl, None)], map[key := 0], {})
  {
    worlds, acts := HandlerStarts(ttl, key);
    worlds, acts := Extend(worlds, acts, Handle(0, WriteHeader(500)));
    assert [] + [WriteHeader(500)] == [WriteHeader(500)];
    worlds, acts := Extend(worlds, acts, Return(0));
  }

  /** Such a release happens: from the empty store, a handler answers 500, and its release
      takes effect and panics. */
  lemma SlipHappens(ttl: Ttl, key: string) returns (worlds: seq<World>, acts: seq<Action>)
    ensures IsRun(worlds, acts) && |acts| == 5 && worlds[0].now == worlds[5].now == 0 && worlds[0].ttl == ttl
    ensures key !in worlds[4].robbed && Slips(worlds[4], acts[4], key)
  {
    worlds, acts := HandlerFails(ttl, key);
    worlds, acts := Extend(worlds, acts, Release(0, Clean, true));
  }

  /** So from the empty store, with no handler late and the clock standing still, a request can
      be replayed another body's response. */
  lemma MisreplayHappens(ttl: Ttl, key: string) returns (worlds: seq<World>, acts: seq<Action>)
    ensures IsRun(worlds, acts) && worlds[0].now == worlds[|acts|].now == 0
    ensures exists writer, reader :: Misreplayed(worlds[|acts|], key, writer, reader)
  {
    worlds, acts := SlipHappens(ttl, key);
    var first, second, third;
    worlds, acts, first, second := SlipLetsTwoIn(worlds, acts, key);
    worlds, acts, third := ThirdIsReplayedFirst(worlds, acts, key, first, second);
    assert Misreplayed(worlds[|acts|], key, first, third);
  }

  // ---- A handler that outlives its reservation ----

  /** Without the assumption that no handler does, no release is needed: from the empty store,
      for every key and time to live, a request can be replayed another body's response. */
  lemma LateHandlerPoisonsTheCache(ttl: Ttl, key: string) returns (worlds: seq<World>, acts: seq<Action>)
    ensures Follows(worlds, acts) && Init(worlds[0]) && worlds[0].ttl == ttl
    ensures worlds[0].now == 0 && worlds[|acts|].now == ttl && forall m | 0 <= m < |acts| ::
      !Slips(worlds[m], acts[m], key)
    ensures exists writer, reader :: Misreplayed(worlds[|acts|], key, writer, reader)
  {
    var empty := World(ttl, 0, map[], map[], map[], {});
    var first, second, third;
    var a, aActs;
    a, aActs, first := NewHandler([empty], [], key, OneHash());
    var b, bActs := Append(a, aActs, Tick(ttl));
    var c, cActs;
    c, cActs, second := NewHandler(b, bActs, key, OtherHash());
    worlds, acts, third := ThirdIsReplayedFirst(c, cActs, key, first, second);
    forall m | 0 <= m < |acts| ensures !Slips(worlds[m], acts[m], key) {
      if m < |aActs| {
        assert worlds[m] == a[m] && acts[m] == aActs[m];
      } else if m < |bActs| {
        assert acts[m] == bActs[m] == Tick(ttl);
      } else if m < |cActs| {
        assert worlds[m] == c[m] && acts[m] == cActs[m];
      }
    }
    assert Misreplayed(worlds[|acts|], key, first, third);
  }

  // ---- The exact condition ----

  /** A longer run that agrees with the run up to world n, and slips on the key no more. */
  predicate Continues(worlds: seq<World>, acts: seq<Action>, n: nat, more: seq<World>, moreActs: seq<Action>,
                      key: string)
    requires n < |worlds| == |acts| + 1
  {
    && IsRun(more, moreActs) && worlds[..n + 1] <= more && acts[..n] <= moreActs
    && forall m | n <= m < |moreActs| :: !Slips(more[m], moreActs[m], key)
  }

  lemma ContinuesSlipFree(worlds: seq<World>, acts: seq<Action>, k: nat, more: seq<World>, moreActs: seq<Action>,
                          key: string)
    requires IsRun(worlds, acts) && k < |acts| && SlipFree(worlds, acts, k, key) && !Slips(worlds[k], acts[k], key)
    requires Continues(worlds, acts, k + 1, more, moreActs, key)
    ensures SlipFree(more, moreActs, |moreActs|, key)
  {
    forall m | 0 <= m < |moreActs| ensures !Slips(more[m], moreActs[m], key) {
      if m <= k {
        assert more[m] == worlds[..k + 2][m] && moreActs[m] == acts[..k + 1][m];
      }
    }
  }

  /** From the world after step k it goes on to world j and two live requests on the key there. */
  predicate ReachesTwo(worlds: seq<World>, acts: seq<Action>, k: nat, more: seq<World>, moreActs: seq<Action>,
                       key: string, j: nat)
    requires k < |acts| && |worlds| == |acts| + 1
  {
    Continues(worlds, acts, k + 1, more, moreActs, key) && k < j < |more| && !Exclusive(more[j], key)
  }

  /** From the world after step k it goes on to a step j that replays what is not its owner's
      response. */
  predicate ReachesMisreplay(worlds: seq<World>, acts: seq<Action>, k: nat, more: seq<World>, moreActs: seq<Action>,
                             key: string, j: nat)
    requires k < |acts| && |worlds| == |acts| + 1
  {
    Continues(worlds, acts, k + 1, more, moreActs, key) && k < j < |moreActs| && WrongReplay(more[j], moreActs[j], key)
  }

  lemma UnrobbedAgrees(worlds: seq<World>, acts: seq<Action>, j: nat, key: string)
    requires IsRun(worlds, acts) && j < |acts| && key !in worlds[j].robbed
    ensures !WrongReplay(worlds[j], acts[j], key)
  {
    if Replays(worlds[j], acts[j], key) {
      StepOfRun(worlds, acts, j);
      ReplaySource(worlds, acts, j, key);
    }
  }

  /** What the run can go on to after a slip. */
  lemma SlipLosesBoth(worlds: seq<World>, acts: seq<Action>, k: nat, key: string)
    returns (two: seq<World>, twoActs: seq<Action>, more: seq<World>, moreActs: seq<Action>)
    requires IsRun(worlds, acts) && k < |acts| && SlipFree(worlds, acts, k, key) && Slips(worlds[k], acts[k], key)
    ensures Continues(worlds, acts, k + 1, two, twoActs, key) && k < |twoActs| && !Exclusive(two[|twoActs|], key)
    ensures Continues(worlds, acts, k + 1, more, moreActs, key) && k + 1 < |moreActs|
    ensures WrongReplay(more[|moreActs| - 1], moreActs[|moreActs| - 1], key)
    ensures exists writer, reader :: Misreplayed(more[|moreActs|], key, writer, reader)
  {
    SlipFreeIsOrderly(worlds, acts, k, key);
    RunPrefix(worlds, acts, k + 1);
    var prefix, prefixActs := worlds[..k + 2], acts[..k + 1];
    assert prefix[k] == worlds[k] && prefixActs[k] == acts[k];
    var first, second, third;
    two, twoActs, first, second := SlipLetsTwoIn(prefix, prefixActs, key);
    var w := two[|twoActs|];
    assert Live(w.requests[first].pc) && Live(w.requests[second].pc);
    more, moreActs, third := ThirdIsReplayedFirst(two, twoActs, key, first, second);
    CleanlyTwice(prefix, prefixActs, two, twoActs, more, moreActs);
    assert Misreplayed(more[|moreActs|], key, first, third);
  }

  /** The exact condition for exclusion: from the first world after a step, the run can go on
      without such releases to two live requests on the key exactly if the step was one. */
  lemma ExclusionLostIff(worlds: seq<World>, acts: seq<Action>, k: nat, key: string)
    requires IsRun(worlds, acts) && k < |acts| && SlipFree(worlds, acts, k, key)
    ensures (exists more, moreActs, j :: ReachesTwo(worlds, acts, k, more, moreActs, key, j)) <==>
      Slips(worlds[k], acts[k], key)
  {
    if Slips(worlds[k], acts[k], key) {
      var two, twoActs, more, moreActs := SlipLosesBoth(worlds, acts, k, key);
      assert ReachesTwo(worlds, acts, k, two, twoActs, key, |twoActs|);
    } else {
      forall more: seq<World>, moreActs: seq<Action>, j: nat
        | ReachesTwo(worlds, acts, k, more, moreActs, key, j)
        ensures false
      {
        ContinuesSlipFree(worlds, acts, k, more, moreActs, key);
        SlipFreeIsOrderly(more, moreActs, j, key);
        MutualExclusion(more, moreActs, j, key);
        assert false;
      }
    }
  }

  /** And the exact condition for replays: it can go on to one that is not its owner's response,
      and even one with another hash, exactly then. */
  lemma AgreementLostIff(worlds: seq<World>, acts: seq<Action>, k: nat, key: string)
    requires IsRun(worlds, acts) && k < |acts| && SlipFree(worlds, acts, k, key)
    ensures (exists more, moreActs, j :: ReachesMisreplay(worlds, acts, k, more, moreActs, key, j)) <==>
      Slips(worlds[k], acts[k], key)
  {
    if Slips(worlds[k], acts[k], key) {
      var two, twoActs, more, moreActs := SlipLosesBoth(worlds, acts, k, key);
      assert ReachesMisreplay(worlds, acts, k, more, moreActs, key, |moreActs| - 1);
    } else {
      forall more: seq<World>, moreActs: seq<Action>, j: nat
        | ReachesMisreplay(worlds, acts, k, more, moreActs, key, j)
        ensures false
      {
        ContinuesSlipFree(worlds, acts, k, more, moreActs, key);
        SlipFreeIsOrderly(more, moreActs, j, key);
        UnrobbedAgrees(more, moreActs, j, key);
        assert false;
      }
    }
  }
}
