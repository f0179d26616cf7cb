/** When a living record can lose the hash it was reserved with, and tell a request with another
    hash what it holds: for every run, robbed keys included. */
module IdempotencyHashes {
  import opened Common
  import opened Http
  import opened Redis
  import opened IdempotencyProtocol
  import opened IdempotencyTheorems
  import opened IdempotencyRestart
  import opened IdempotencyLimits

  /** The record that step i reserved lives on to world j and has another hash there. */
  predicate LosesHash(worlds: seq<World>, acts: seq<Action>, key: string, i: nat, j: nat) {
    && Follows(worlds, acts) && i < j < |worlds| && Books(worlds[i], acts[i], key) && Lives(worlds, key, i + 1, j)
    && Present(worlds[j].db, worlds[j].now, key)
    && worlds[j].db[key].env.hash != worlds[i].requests[acts[i].id].hash
  }

  /** It lives on to step j, which tells a request with another hash what it holds. */
  predicate Leaks(worlds: seq<World>, acts: seq<Action>, key: string, i: nat, j: nat) {
    && Follows(worlds, acts) && i < j < |acts| && Books(worlds[i], acts[i], key) && Lives(worlds, key, i + 1, j)
    && Learns(worlds[j], acts[j], key)
    && worlds[j].requests[acts[j].id].hash != worlds[i].requests[acts[i].id].hash
  }

  /** A longer run that agrees with the run through step i. */
  predicate Prolongs(worlds: seq<World>, acts: seq<Action>, i: nat, more: seq<World>, moreActs: seq<Action>)
    requires i < |acts| && |worlds| == |acts| + 1
  {
    IsRun(more, moreActs) && worlds[..i + 2] <= more && acts[..i + 1] <= moreActs
  }

  lemma StrangerWrites(w: World, key: string, id: nat)
    requires Present(w.db, w.now, key) && id in w.requests && w.requests[id].key == key
    requires w.requests[id].pc.CompletingSet?
    ensures var w' := Step(w, CompleteSet(id, Clean, false));
      Present(w'.db, w'.now, key) && w'.db[key].env.hash == w.requests[id].pc.existing.hash
  {
  }

  /** Whoever is about to store under another hash comes to do so. */
  lemma StrangerLosesHash(worlds: seq<World>, acts: seq<Action>, key: string)
    returns (more: seq<World>, moreActs: seq<Action>)
    requires Follows(worlds, acts) && acts != [] && Books(worlds[|acts| - 1], acts[|acts| - 1], key)
    requires StrangerStores(worlds[|acts| - 1], key, worlds[|acts| - 1].requests[acts[|acts| - 1].id].hash)
    ensures GoesOnCleanly(worlds, acts, more, moreActs) && LosesHash(more, moreActs, key, |acts| - 1, |moreActs|)
  {
    var i := |acts| - 1;
    assert Next(worlds[i], acts[i], worlds[i + 1]);
    var w := worlds[i];
    var id :| id in w.requests && w.requests[id].key == key
      && w.requests[id].pc.CompletingSet? && w.requests[id].pc.existing.hash != w.requests[acts[i].id].hash;
    assert worlds[i + 1].requests[id] == w.requests[id] && Present(worlds[i + 1].db, worlds[i + 1].now, key);
    StrangerWrites(worlds[i + 1], key, id);
    more, moreActs := Continue(worlds, acts, worlds, acts, CompleteSet(id, Clean, false));
    assert more[i] == w && moreActs[i] == acts[i] && more[i + 1] == worlds[i + 1];
  }

  lemma LostHashLeaks(worlds: seq<World>, acts: seq<Action>, key: string, i: nat)
    returns (more: seq<World>, moreActs: seq<Action>)
    requires LosesHash(worlds, acts, key, i, |acts|)
    ensures GoesOnCleanly(worlds, acts, more, moreActs) && Leaks(more, moreActs, key, i, |moreActs| - 1)
  {
    var w := worlds[|acts|];
    var id := FreshId(w.requests.Keys);
    more, moreActs := Continue(worlds, acts, worlds, acts, Arrive(id, key, w.db[key].env.hash));
    more, moreActs := Continue(worlds, acts, more, moreActs, Reserve(id, Clean));
    more, moreActs := Continue(worlds, acts, more, moreActs, Fetch(id, Clean));
    var n := |acts|;
    assert more[n + 1].db == more[n + 2].db == w.db && more[n + 1].now == more[n + 2].now == w.now;
    forall m | i + 1 <= m <= n + 2 ensures Present(more[m].db, more[m].now, key) {
      if m <= n {
        assert more[m] == worlds[m];
      }
    }
    assert more[i] == worlds[i] && moreActs[i] == acts[i];
  }

  /** The exact condition for hashes, in every run: once a key is reserved, the run can go on to
      the living record having another hash exactly if somebody was about to store under one. */
  lemma RecordHashLostIff(worlds: seq<World>, acts: seq<Action>, key: string, i: nat)
    requires IsRun(worlds, acts) && i < |acts| && Books(worlds[i], acts[i], key)
    ensures (exists more, moreActs, j ::
             Prolongs(worlds, acts, i, more, moreActs) && LosesHash(more, moreActs, key, i, j))
      <==> StrangerStores(worlds[i], key, worlds[i].requests[acts[i].id].hash)
  {
    var hash := worlds[i].requests[acts[i].id].hash;
    if StrangerStores(worlds[i], key, hash) {
      RunPrefix(worlds, acts, i + 1);
      var more, moreActs := StrangerLosesHash(worlds[..i + 2], acts[..i + 1], key);
      assert Prolongs(worlds, acts, i, more, moreActs);
    } else {
      forall more: seq<World>, moreActs: seq<Action>, j: nat
        | Prolongs(worlds, acts, i, more, moreActs) && LosesHash(more, moreActs, key, i, j)
        ensures false
      {
        assert more[i] == worlds[..i + 2][i] && moreActs[i] == acts[..i + 1][i];
        RecordKeepsHash(more, moreActs, key, i, j);
        assert false;
      }
    }
  }

  /** And to a request with another hash learning what it holds exactly then. */
  lemma HashBindingLostIff(worlds: seq<World>, acts: seq<Action>, key: string, i: nat)
    requires IsRun(worlds, acts) && i < |acts| && Books(worlds[i], acts[i], key)
    ensures (exists more, moreActs, j :: Prolongs(worlds, acts, i, more, moreActs) && Leaks(more, moreActs, key, i, j))
      <==> StrangerStores(worlds[i], key, worlds[i].requests[acts[i].id].hash)
  {
    var hash := worlds[i].requests[acts[i].id].hash;
    if StrangerStores(worlds[i], key, hash) {
      RunPrefix(worlds, acts, i + 1);
      var more, moreActs := StrangerLosesHash(worlds[..i + 2], acts[..i + 1], key);
      var most, mostActs := LostHashLeaks(more, moreActs, key, i);
      assert Prolongs(worlds, acts, i, most, mostActs);
    } else {
      forall more: seq<World>, moreActs: seq<Action>, j: nat
        | Prolongs(worlds, acts, i, more, moreActs) && Leaks(more, moreActs, key, i, j)
        ensures false
      {
        assert more[i] == worlds[..i + 2][i] && moreActs[i] == acts[..i + 1][i];
        HashBinding(more, moreActs, key, i, j);
        assert false;
      }
    }
  }

  /** The key is free, and the request is about to store under the first of the two hashes. */
  predicate StoresOneHash(w: World, key: string, id: nat) {
    && key !in w.db && id in w.requests && w.requests[id].key == key
    && w.requests[id].pc.CompletingSet? && w.requests[id].pc.existing.hash == OneHash()
  }

  /** A request that is about to store loses its reservation to a second release. */
  lemma StrayTakesFromStorer(worlds: seq<World>, acts: seq<Action>, key: string, stray: nat)
    returns (more: seq<World>, moreActs: seq<Action>, first: nat)
    requires Follows(worlds, acts) && key !in worlds[|acts|].db
    requires stray in worlds[|acts|].requests && worlds[|acts|].requests[stray].key == key
    requires worlds[|acts|].requests[stray].pc.ReleasingAgain?
    ensures GoesOnCleanly(worlds, acts, more, moreActs) && StoresOneHash(more[|moreActs|], key, first)
  {
    var a, aActs, b, bActs;
    a, aActs, first := NewHandler(worlds, acts, key, OneHash());
    b, bActs := AboutToStore(a, aActs, key, first);
    CleanlyTwice(worlds, acts, a, aActs, b, bActs);
    more, moreActs := SecondReleaseRobs(b, bActs, key, stray);
    CleanlyTwice(worlds, acts, b, bActs, more, moreActs);
  }

  /** The next reservation then loses its hash to that request. */
  lemma NextLosesHash(worlds: seq<World>, acts: seq<Action>, key: string, first: nat)
    returns (more: seq<World>, moreActs: seq<Action>, i: nat)
    requires Follows(worlds, acts) && StoresOneHash(worlds[|acts|], key, first)
    ensures GoesOnCleanly(worlds, acts, more, moreActs) && LosesHash(more, moreActs, key, i, |moreActs|)
  {
    var a, aActs, second := NewHandler(worlds, acts, key, OtherHash());
    i := |acts| + 1;
    HashesDiffer();
    assert Next(a[i], aActs[i], a[i + 1]);
    assert a[i].requests[first] == a[i + 1].requests[first] == worlds[|acts|].requests[first];
    more, moreActs := StrangerLosesHash(a, aActs, key);
    CleanlyTwice(worlds, acts, a, aActs, more, moreActs);
  }

  lemma StrayLosesHash(worlds: seq<World>, acts: seq<Action>, key: string, stray: nat)
    returns (more: seq<World>, moreActs: seq<Action>, i: nat)
    requires Follows(worlds, acts) && key !in worlds[|acts|].db
    requires stray in worlds[|acts|].requests && worlds[|acts|].requests[stray].key == key
    requires worlds[|acts|].requests[stray].pc.ReleasingAgain?
    ensures GoesOnCleanly(worlds, acts, more, moreActs) && LosesHash(more, moreActs, key, i, |moreActs|)
  {
    var a, aActs, first := StrayTakesFromStorer(worlds, acts, key, stray);
    more, moreActs, i := NextLosesHash(a, aActs, key, first);
    CleanlyTwice(worlds, acts, a, aActs, more, moreActs);
  }

  /** So from a world without such a release, a step and any further ones without one can lead to
      a living record losing its hash exactly if that step is one. */
  lemma HashLostAfterSlipIff(worlds: seq<World>, acts: seq<Action>, k: nat, key: string)
    requires IsRun(worlds, acts) && k < |acts| && SlipFree(worlds, acts, k, key)
    ensures (exists more, moreActs, i, j ::
      Continues(worlds, acts, k + 1, more, moreActs, key) && LosesHash(more, moreActs, key, i, j))
      <==> Slips(worlds[k], acts[k], key)
  {
    if Slips(worlds[k], acts[k], key) {
      SlipFreeIsOrderly(worlds, acts, k, key);
      StepOfRun(worlds, acts, k);
      SlipFreesKey(worlds[k], acts[k], key);
      RunPrefix(worlds, acts, k + 1);
      var more, moreActs, i := StrayLosesHash(worlds[..k + 2], acts[..k + 1], key, acts[k].id);
      assert Continues(worlds, acts, k + 1, more, moreActs, key) && LosesHash(more, moreActs, key, i, |moreActs|);
    } else {
      forall more: seq<World>, moreActs: seq<Action>, i: nat, j: nat
        | Continues(worlds, acts, k + 1, more, moreActs, key) && LosesHash(more, moreActs, key, i, j)
        ensures false
      {
        ContinuesSlipFree(worlds, acts, k, more, moreActs, key);
        SlipFreeIsOrderly(more, moreActs, i + 1, key);
        RecordKeepsOwner(more, moreActs, key, i, j);
        assert false;
      }
    }
  }

  /** It happens, for every key and time to live, from the empty store, the clock standing still. */
  lemma HashLossHappens(ttl: Ttl, key: string) returns (worlds: seq<World>, acts: seq<Action>, i: nat)
    ensures IsRun(worlds, acts) && worlds[0].ttl == ttl && worlds[|acts|].now == 0
    ensures LosesHash(worlds, acts, key, i, |acts|)
  {
    var a, aActs := SlipHappens(ttl, key);
    StepOfRun(a, aActs, 4);
    SlipFreesKey(a[4], aActs[4], key);
    worlds, acts, i := StrayLosesHash(a, aActs, key, aActs[4].id);
  }
}
