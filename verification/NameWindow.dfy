/** When a name's window can be broken. A holder is safe exactly as long as it is stored to the
    end of its window and no delivery of its own waits to move that end back. */
module NameWindow {
  import opened Common
  import opened NameReservation
  import Names = ApplicationName
  import Records = RepositoryRecord

  /** A run that goes on from world k of another. */
  predicate GoesOn(worlds: seq<World>, acts: seq<Action>, k: nat, more: seq<World>, moreActs: seq<Action>)
    requires k < |worlds| == |acts| + 1
  {
    Follows(more, moreActs) && worlds[..k + 1] <= more && acts[..k] <= moreActs
  }

  /** At step j another request takes the name inside the window. */
  predicate TakenInside(worlds: seq<World>, acts: seq<Action>, j: nat, name: string, requestId: string, t: int)
    requires |worlds| == |acts| + 1
  {
    && j < |acts| && WindowOpen(worlds[j], t) && Takes(worlds[j], acts[j], name)
    && worlds[j].deliveries[acts[j].id].reservation.requestId != requestId
  }

  /** The run can go on from world k to another request taking the name inside the window. */
  ghost predicate Breakable(worlds: seq<World>, acts: seq<Action>, k: nat, name: string, requestId: string, t: int)
    requires k < |worlds| == |acts| + 1
  {
    exists more, moreActs, j ::
      GoesOn(worlds, acts, k, more, moreActs) && k <= j && TakenInside(more, moreActs, j, name, requestId, t)
  }

  // ---- Safe holders stay safe ----

  lemma StepKeepsSafe(w: World, act: Action, name: string, requestId: string, t: int)
    requires TimesOk(w) && Enabled(w, act)
    requires Guarded(w, name, requestId, t) && !StalePends(w, name, requestId, t)
    ensures Guarded(Step(w, act), name, requestId, t)
  {
    StepKeepsGuard(w, act, name, requestId, t);
  }

  lemma {:induction false} SafeStaysGuarded(worlds: seq<World>, acts: seq<Action>, k: nat, j: nat,
                                            name: string, requestId: string, t: int)
    requires Follows(worlds, acts) && k <= j < |worlds| && t <= worlds[k].now
    requires Guarded(worlds[k], name, requestId, t) && !StalePends(worlds[k], name, requestId, t)
    ensures Guarded(worlds[j], name, requestId, t)
    decreases j
  {
    if k < j {
      SafeStaysGuarded(worlds, acts, k, j - 1, name, requestId, t);
      RunPendsNothingStale(worlds, acts, k, j - 1, name, requestId, t);
      RunKeepsTimes(worlds, acts, j - 1);
      StepKeepsSafe(worlds[j - 1], acts[j - 1], name, requestId, t);
    }
  }

  // ---- Unsafe holders can lose the name ----

  /** Every request named anywhere is one that can read the clock again. */
  predicate Named(w: World) {
    && 0 < w.ttl
    && (forall id <- w.deliveries :: !Records.Blank(w.deliveries[id].reservation.requestId))
    && (forall name <- w.table :: !Records.Blank(w.table[name].requestId))
  }

  lemma {:induction false} RunKeepsNamed(worlds: seq<World>, acts: seq<Action>, i: nat)
    requires Follows(worlds, acts) && i < |worlds|
    ensures Named(worlds[i])
  {
    if i > 0 {
      RunKeepsNamed(worlds, acts, i - 1);
    }
  }

  lemma Extend(worlds: seq<World>, acts: seq<Action>, act: Action) returns (more: seq<World>, moreActs: seq<Action>)
    requires Follows(worlds, acts) && Enabled(worlds[|acts|], act)
    ensures Follows(more, moreActs) && moreActs == acts + [act] && more == worlds + [Step(worlds[|acts|], act)]
  {
    more, moreActs := worlds + [Step(worlds[|acts|], act)], acts + [act];
  }

  /** A name that is free, or another request's, is taken by another request at once. */
  lemma OtherTakes(worlds: seq<World>, acts: seq<Action>, name: string, requestId: string, t: int)
    returns (more: seq<World>, moreActs: seq<Action>)
    requires Follows(worlds, acts) && Names.Valid(name) && WindowOpen(worlds[|acts|], t)
    requires name in worlds[|acts|].table ==> worlds[|acts|].table[name].requestId != requestId
    ensures Follows(more, moreActs) && worlds <= more && acts <= moreActs && |moreActs| == |acts| + 2
    ensures TakenInside(more, moreActs, |acts| + 1, name, requestId, t)
  {
    var w := worlds[|acts|];
    RunKeepsNamed(worlds, acts, |acts|);
    var other := if name in w.table then w.table[name].requestId else if requestId == "a" then "b" else "a";
    assert Names.TrimStart("a") == "a" && Names.TrimStart("b") == "b";
    var id := FreshId(w.deliveries.Keys);
    more, moreActs := Extend(worlds, acts, Read(id, name, other));
    more, moreActs := Extend(more, moreActs, Write(id, Clean));
  }

  /** A holder that is stored to an earlier second expires inside its window. */
  lemma HolderExpires(worlds: seq<World>, acts: seq<Action>, name: string, requestId: string, t: int)
    returns (more: seq<World>, moreActs: seq<Action>)
    requires Follows(worlds, acts) && WindowOpen(worlds[|acts|], t)
    requires name in worlds[|acts|].table
      && worlds[|acts|].table[name].expiresAtSecond < EndSecond(worlds[|acts|].ttl, t)
    ensures Follows(more, moreActs) && worlds <= more && acts <= moreActs
    ensures WindowOpen(more[|moreActs|], t) && name !in more[|moreActs|].table
  {
    var w := worlds[|acts|];
    var due := w.table[name].expiresAtSecond * SECOND;
    more, moreActs := Extend(worlds, acts, Tick(if due < w.now then w.now else due));
    more, moreActs := Extend(more, moreActs, Expire(name));
  }

  lemma UnguardedIsTaken(worlds: seq<World>, acts: seq<Action>, name: string, requestId: string, t: int)
    returns (more: seq<World>, moreActs: seq<Action>)
    requires Follows(worlds, acts) && Names.Valid(name) && !Guarded(worlds[|acts|], name, requestId, t)
    ensures Follows(more, moreActs) && worlds <= more && acts <= moreActs && |acts| < |moreActs|
    ensures TakenInside(more, moreActs, |moreActs| - 1, name, requestId, t)
  {
    var w := worlds[|acts|];
    if name in w.table && w.table[name].requestId == requestId {
      more, moreActs := HolderExpires(worlds, acts, name, requestId, t);
      more, moreActs := OtherTakes(more, moreActs, name, requestId, t);
    } else {
      more, moreActs := OtherTakes(worlds, acts, name, requestId, t);
    }
  }

  /** The waiting delivery writes, and the holder is no longer guarded. */
  lemma StaleWriteUnguards(worlds: seq<World>, acts: seq<Action>, name: string, requestId: string, t: int)
    returns (more: seq<World>, moreActs: seq<Action>)
    requires Follows(worlds, acts) && WindowOpen(worlds[|acts|], t)
    requires Guarded(worlds[|acts|], name, requestId, t) && StalePends(worlds[|acts|], name, requestId, t)
    ensures Follows(more, moreActs) && worlds <= more && acts <= moreActs
    ensures !Guarded(more[|moreActs|], name, requestId, t)
  {
    var w := worlds[|acts|];
    RunKeepsTimes(worlds, acts, |acts|);
    var id :| id in w.deliveries && w.deliveries[id].outcome.None?
      && Stale(w, w.deliveries[id].reservation, name, requestId, t);
    more, moreActs := Extend(worlds, acts, Write(id, Clean));
    ReplayBreaksIff(w, Write(id, Clean), name, requestId, t);
  }

  lemma UnsafeIsTaken(worlds: seq<World>, acts: seq<Action>, name: string, requestId: string, t: int)
    returns (more: seq<World>, moreActs: seq<Action>)
    requires Follows(worlds, acts) && Names.Valid(name) && WindowOpen(worlds[|acts|], t)
    requires !Guarded(worlds[|acts|], name, requestId, t) || StalePends(worlds[|acts|], name, requestId, t)
    ensures Follows(more, moreActs) && worlds <= more && acts <= moreActs && |acts| < |moreActs|
    ensures TakenInside(more, moreActs, |moreActs| - 1, name, requestId, t)
  {
    more, moreActs := worlds, acts;
    if Guarded(worlds[|acts|], name, requestId, t) {
      more, moreActs := StaleWriteUnguards(worlds, acts, name, requestId, t);
    }
    more, moreActs := UnguardedIsTaken(more, moreActs, name, requestId, t);
  }

  lemma Prefix(worlds: seq<World>, acts: seq<Action>, k: nat)
    requires Follows(worlds, acts) && k <= |acts|
    ensures Follows(worlds[..k + 1], acts[..k]) && worlds[..k + 1][k] == worlds[k]
  {
  }

  /** The exact condition, for every world of every run and every clock reading up to then: as
      long as the window is open, another request can come to take the name inside it exactly
      if the holder is not stored to its end, or a stale delivery of its own is yet to write. */
  lemma BreakableIff(worlds: seq<World>, acts: seq<Action>, k: nat, name: string, requestId: string, t: int)
    requires Follows(worlds, acts) && k < |worlds| && Names.Valid(name) && t <= worlds[k].now
      && WindowOpen(worlds[k], t)
    ensures Breakable(worlds, acts, k, name, requestId, t) <==>
      !Guarded(worlds[k], name, requestId, t) || StalePends(worlds[k], name, requestId, t)
  {
    if !Guarded(worlds[k], name, requestId, t) || StalePends(worlds[k], name, requestId, t) {
      Prefix(worlds, acts, k);
      var more, moreActs := UnsafeIsTaken(worlds[..k + 1], acts[..k], name, requestId, t);
      assert GoesOn(worlds, acts, k, more, moreActs) && TakenInside(more, moreActs, |moreActs| - 1, name, requestId, t);
    } else if Breakable(worlds, acts, k, name, requestId, t) {
      var more, moreActs, j :|
        GoesOn(worlds, acts, k, more, moreActs) && k <= j && TakenInside(more, moreActs, j, name, requestId, t);
      assert more[k] == worlds[..k + 1][k];
      SafeStaysGuarded(more, moreActs, k, j, name, requestId, t);
      assert false;
    }
  }

  /** So right after a request takes a name, its window can be broken exactly if another of its
      deliveries has read the clock in time for an earlier end and is yet to write. */
  lemma ExposedIff(worlds: seq<World>, acts: seq<Action>, i: nat, name: string)
    requires Follows(worlds, acts) && i < |acts| && Names.Valid(name) && Takes(worlds[i], acts[i], name)
    requires WindowOpen(worlds[i], worlds[i].deliveries[acts[i].id].reservation.createdAt)
    ensures var r := worlds[i].deliveries[acts[i].id].reservation;
      Breakable(worlds, acts, i + 1, name, r.requestId, r.createdAt) <==>
      exists id <- worlds[i].deliveries :: id != acts[i].id && worlds[i].deliveries[id].outcome.None?
        && Stale(worlds[i], worlds[i].deliveries[id].reservation, name, r.requestId, r.createdAt)
  {
    var w, w', r := worlds[i], worlds[i + 1], worlds[i].deliveries[acts[i].id].reservation;
    RunKeepsTimes(worlds, acts, i);
    TakingGuards(w, acts[i], name);
    BreakableIff(worlds, acts, i + 1, name, r.requestId, r.createdAt);
    assert forall id <- w.deliveries | id != acts[i].id :: id in w'.deliveries && w'.deliveries[id] == w.deliveries[id];
    assert w'.deliveries.Keys == w.deliveries.Keys;
  }

  /** It does happen: two overlapping deliveries of one request, for every valid name, and
      another request holds the name a whole second before the first one's window ends. */
  lemma OverlapBreaksTheWindow(name: string, first: string, second: string)
    returns (worlds: seq<World>, acts: seq<Action>)
    requires Names.Valid(name) && !Records.Blank(first) && !Records.Blank(second) && first != second
    ensures Follows(worlds, acts) && |acts| == 8
    ensures Takes(worlds[3], acts[3], name)
      && worlds[3].deliveries[acts[3].id].reservation == Reservation(name, first, SECOND, 2 * SECOND)
    ensures worlds[7].ttl == SECOND && TakenInside(worlds, acts, 7, name, first, SECOND)
    ensures worlds[7].deliveries[acts[7].id].reservation.requestId == second
    ensures WindowOpen(worlds[7], SECOND) && worlds[7].now == SECOND
  {
    worlds, acts := StaleReplayShortens(name, first);
    worlds, acts := Extend(worlds, acts, Expire(name));
    worlds, acts := Extend(worlds, acts, Read(3, name, second));
    worlds, acts := Extend(worlds, acts, Write(3, Clean));
  }
}
