/** Name reservations: one conditional write per delivery, and a table that drops an item some
    time after the second it expires in. */
module NameReservation {
  import opened Common
  import Names = ApplicationName
  import Records = RepositoryRecord

  /** Ticks of a ten-millionth of a second. */
  const SECOND := 10_000_000

  datatype Reservation = Reservation(name: string, requestId: string, createdAt: int, expiresAt: int)

  /** None stands for an argument exception. */
  function Open(name: string, requestId: string, now: int, ttl: int): Option<Reservation> {
    if Records.Blank(requestId) || ttl <= 0 then None
    else Some(Reservation(name, requestId, now, now + ttl))
  }

  /** The stored item; its expiry is in whole epoch seconds. */
  datatype Item = Item(requestId: string, createdAt: int, expiresAtSecond: int)

  function ToItem(r: Reservation): (item: Item)
    ensures item.expiresAtSecond * SECOND <= r.expiresAt < (item.expiresAtSecond + 1) * SECOND
  {
    Item(r.requestId, r.createdAt, r.expiresAt / SECOND)
  }

  type Table = map<string, Item>

  /** attribute_not_exists(PK) OR RequestId = :requestId */
  predicate Allowed(table: Table, r: Reservation) {
    r.name !in table || table[r.name].requestId == r.requestId
  }

  function Put(table: Table, r: Reservation, fault: Fault): Table {
    if TakesEffect(fault) && Allowed(table, r) then table[r.name := ToItem(r)] else table
  }

  datatype Outcome =
    | Reserved(expiresAt: int, alreadyReserved: bool)
    | AlreadyTaken                 // NAME_ALREADY_RESERVED
    | InvalidName
    | Faulted

  class DynamoDbNameReservationStore {
    var table: Table

    constructor ()
      ensures table == map[]
    {
      table := map[];
    }

    method ReserveAsync(r: Reservation, fault: Fault) returns (outcome: Outcome)
      modifies this
      ensures table == Put(old(table), r, fault)
      ensures outcome == if !fault.Clean? then Faulted
        else if Allowed(old(table), r) then Reserved(r.expiresAt, r.name in old(table)) else AlreadyTaken
      ensures var before := old(table);
        && (fault.Clean? && r.name !in before ==> outcome == Reserved(r.expiresAt, false))
        && (fault.Clean? && r.name in before && before[r.name].requestId == r.requestId ==>
              outcome == Reserved(r.expiresAt, true))
        && (fault.Clean? && r.name in before && before[r.name].requestId != r.requestId ==>
              outcome == AlreadyTaken && table == before)
        && (outcome.Reserved? ==>
              table == before[r.name := Item(r.requestId, r.createdAt, r.expiresAt / 10_000_000)])
    {
      var replayed := r.name in table && table[r.name].requestId == r.requestId;
      var allowed := r.name !in table || replayed;
      if TakesEffect(fault) && allowed {
        table := table[r.name := ToItem(r)];
      }
      if !fault.Clean? {
        return Faulted;
      }
      if !allowed {
        return AlreadyTaken;
      }
      return Reserved(r.expiresAt, replayed);
    }
  }

  /** The use case: parse, read the clock, open the reservation, reserve. */
  method Execute(store: DynamoDbNameReservationStore, requestId: string, rawName: string, now: int, ttl: int,
                 fault: Fault)
    returns (outcome: Outcome)
    modifies store
    ensures var name := Names.Trim(rawName); var reservation := Open(name, requestId, now, ttl);
      if !Names.Valid(name) then outcome == InvalidName && store.table == old(store.table)
      else if reservation.None? then outcome == Faulted && store.table == old(store.table)
      else
        && outcome == Answer(old(store.table), reservation.value, fault)
        && store.table == Put(old(store.table), reservation.value, fault)
    ensures outcome.Faulted? && fault.Clean? <==>
      Names.Valid(Names.Trim(rawName)) && fault.Clean? && (Records.Blank(requestId) || ttl <= 0)
    ensures outcome.Reserved? ==>
      var name := Names.Trim(rawName);
      && outcome.expiresAt == now + ttl && outcome.alreadyReserved == (name in old(store.table))
      && store.table == old(store.table)[name := Item(requestId, now, (now + ttl) / 10_000_000)]
  {
    var name := Names.Trim(rawName);
    if !Names.Valid(name) {
      return InvalidName;
    }
    var reservation := Open(name, requestId, now, ttl);
    if reservation.None? {
      return Faulted;
    }
    outcome := store.ReserveAsync(reservation.value, fault);
  }

  function Answer(table: Table, r: Reservation, fault: Fault): Outcome {
    if !fault.Clean? then Faulted
    else if Allowed(table, r) then Reserved(r.expiresAt, r.name in table) else AlreadyTaken
  }

  // ---- The protocol: reading the clock and writing are separate steps ----

  datatype Delivery = Delivery(reservation: Reservation, outcome: Option<Outcome>)

  datatype World = World(ttl: int, now: int, table: Table, deliveries: map<nat, Delivery>)

  datatype Action =
    | Read(id: nat, name: string, requestId: string)
    | Write(id: nat, fault: Fault)   // FailedBefore also stands for a delivery that dies unwritten
    | Expire(name: string)
    | Tick(now: int)

  predicate Enabled(w: World, act: Action) {
    match act
    case Read(id, name, requestId) => id !in w.deliveries && Names.Valid(name)
      && Open(name, requestId, w.now, w.ttl).Some?
    case Write(id, _) => id in w.deliveries && w.deliveries[id].outcome.None?
    case Expire(name) => name in w.table && w.table[name].expiresAtSecond * SECOND <= w.now
    case Tick(now) => w.now <= now
  }

  function Step(w: World, act: Action): World
    requires Enabled(w, act)
  {
    match act
    case Read(id, name, requestId) =>
      w.(deliveries := w.deliveries[id := Delivery(Open(name, requestId, w.now, w.ttl).value, None)])
    case Write(id, fault) =>
      var r := w.deliveries[id].reservation;
      w.(deliveries := w.deliveries[id := Delivery(r, Some(Answer(w.table, r, fault)))],
         table := Put(w.table, r, fault))
    case Expire(name) => w.(table := w.table - {name})
    case Tick(now) => w.(now := now)
  }

  predicate Init(w: World) {
    w.table == map[] && w.deliveries == map[] && 0 < w.ttl
  }

  /** The clock of a request is read only when its earlier deliveries have written. */
  predicate Serial(w: World, act: Action) {
    act.Read? ==> forall id <- w.deliveries :: w.deliveries[id].reservation.requestId == act.requestId ==>
      w.deliveries[id].outcome.Some?
  }

  predicate Follows(worlds: seq<World>, acts: seq<Action>) {
    && |worlds| == |acts| + 1 && Init(worlds[0])
    && forall i | 0 <= i < |acts| :: Enabled(worlds[i], acts[i]) && worlds[i + 1] == Step(worlds[i], acts[i])
  }

  predicate IsRun(worlds: seq<World>, acts: seq<Action>) {
    Follows(worlds, acts) && forall i | 0 <= i < |acts| :: Serial(worlds[i], acts[i])
  }

  /** The action is a write that takes the name for its request. */
  predicate Takes(w: World, act: Action, name: string) {
    && act.Write? && Enabled(w, act) && TakesEffect(act.fault)
    && w.deliveries[act.id].reservation.name == name && Allowed(w.table, w.deliveries[act.id].reservation)
  }

  /** Every reservation and every item lasts from a past clock reading for the time to live,
      items to the whole second. */
  predicate TimesOk(w: World) {
    && (forall id <- w.deliveries ::
          var r := w.deliveries[id].reservation; r.createdAt <= w.now && r.expiresAt == r.createdAt + w.ttl)
    && (forall name <- w.table ::
          w.table[name].createdAt <= w.now
            && w.table[name].expiresAtSecond == (w.table[name].createdAt + w.ttl) / SECOND)
  }

  lemma StepKeepsTimes(w: World, act: Action)
    requires TimesOk(w) && Enabled(w, act)
    ensures TimesOk(Step(w, act)) && Step(w, act).ttl == w.ttl && w.now <= Step(w, act).now
  {
  }

  lemma {:induction false} RunKeepsTimes(worlds: seq<World>, acts: seq<Action>, i: nat)
    requires Follows(worlds, acts) && i < |worlds|
    ensures TimesOk(worlds[i])
  {
    if i > 0 {
      RunKeepsTimes(worlds, acts, i - 1);
      StepKeepsTimes(worlds[i - 1], acts[i - 1]);
    }
  }

  lemma SecondsGrow(a: int, b: int)
    requires a <= b
    ensures a / SECOND <= b / SECOND
  {
  }

  // ---- The window ----

  /** The whole second in which the window of a clock reading of t ends. */
  function EndSecond(ttl: int, t: int): int {
    (t + ttl) / SECOND
  }

  /** The window of a clock reading of t is still open. */
  predicate WindowOpen(w: World, t: int) {
    w.now < EndSecond(w.ttl, t) * SECOND
  }

  /** The name is the request's to the end of the window of a clock reading of t, or that window is over. */
  predicate Guarded(w: World, name: string, requestId: string, t: int) {
    || !WindowOpen(w, t)
    || (name in w.table && w.table[name].requestId == requestId && EndSecond(w.ttl, t) <= w.table[name].expiresAtSecond)
  }

  /** A reservation of the request for the name whose own window ends in an earlier second. */
  predicate Stale(w: World, r: Reservation, name: string, requestId: string, t: int) {
    r.name == name && r.requestId == requestId && EndSecond(w.ttl, r.createdAt) < EndSecond(w.ttl, t)
  }

  /** The request takes the name again with a stale clock reading. */
  predicate StaleReplay(w: World, act: Action, name: string, requestId: string, t: int) {
    Takes(w, act, name) && Stale(w, w.deliveries[act.id].reservation, name, requestId, t)
  }

  lemma StepKeepsGuard(w: World, act: Action, name: string, requestId: string, t: int)
    requires TimesOk(w) && Enabled(w, act) && Guarded(w, name, requestId, t) && !StaleReplay(w, act, name, requestId, t)
    ensures Guarded(Step(w, act), name, requestId, t)
  {
  }

  /** A replay by the holder breaks its own window exactly if it is stale. */
  lemma ReplayBreaksIff(w: World, act: Action, name: string, requestId: string, t: int)
    requires TimesOk(w) && WindowOpen(w, t) && Guarded(w, name, requestId, t)
    requires Takes(w, act, name) && w.deliveries[act.id].reservation.requestId == requestId
    ensures !Guarded(Step(w, act), name, requestId, t) <==> StaleReplay(w, act, name, requestId, t)
  {
  }

  lemma TakingGuards(w: World, act: Action, name: string)
    requires TimesOk(w) && Takes(w, act, name)
    ensures var r := w.deliveries[act.id].reservation; Guarded(Step(w, act), name, r.requestId, r.createdAt)
  {
  }

  lemma {:induction false} RunKeepsGuard(worlds: seq<World>, acts: seq<Action>, i: nat, j: nat, name: string,
                                         requestId: string, t: int)
    requires Follows(worlds, acts) && i <= j < |worlds| && Guarded(worlds[i], name, requestId, t)
    requires forall m | i <= m < j :: !StaleReplay(worlds[m], acts[m], name, requestId, t)
    ensures Guarded(worlds[j], name, requestId, t) && worlds[j].ttl == worlds[i].ttl
    decreases j
  {
    if i < j {
      RunKeepsGuard(worlds, acts, i, j - 1, name, requestId, t);
      RunKeepsTimes(worlds, acts, j - 1);
      StepKeepsTimes(worlds[j - 1], acts[j - 1]);
      StepKeepsGuard(worlds[j - 1], acts[j - 1], name, requestId, t);
    }
  }

  /** In any run, overlapping deliveries included, another request takes a name inside its
      holder's window only if the holder has meanwhile moved its own expiry back. */
  lemma OnlyStaleReplaysBreakTheWindow(worlds: seq<World>, acts: seq<Action>, i: nat, j: nat, name: string)
    requires Follows(worlds, acts) && i < j < |acts| && Takes(worlds[i], acts[i], name)
      && Takes(worlds[j], acts[j], name)
    requires var r := worlds[i].deliveries[acts[i].id].reservation;
      && worlds[j].deliveries[acts[j].id].reservation.requestId != r.requestId
      && worlds[j].now < EndSecond(worlds[i].ttl, r.createdAt) * SECOND
    ensures var r := worlds[i].deliveries[acts[i].id].reservation;
      exists m | i < m < j :: StaleReplay(worlds[m], acts[m], name, r.requestId, r.createdAt)
  {
    var r := worlds[i].deliveries[acts[i].id].reservation;
    RunKeepsTimes(worlds, acts, i);
    TakingGuards(worlds[i], acts[i], name);
    StepKeepsTimes(worlds[i], acts[i]);
    if forall m | i < m < j :: !StaleReplay(worlds[m], acts[m], name, r.requestId, r.createdAt) {
      RunKeepsGuard(worlds, acts, i + 1, j, name, r.requestId, r.createdAt);
      assert false;
    }
  }

  // ---- Deliveries one after another ----

  /** At most one delivery of a request has read the clock and not yet written, and what it
      read is no earlier than what its request has stored. */
  predicate InTurn(w: World) {
    && (forall a, b | a in w.deliveries && b in w.deliveries ::
          (w.deliveries[a].outcome.None? && w.deliveries[b].outcome.None?
           && w.deliveries[a].reservation.requestId == w.deliveries[b].reservation.requestId) ==> a == b)
    && (forall id <- w.deliveries | w.deliveries[id].outcome.None? :: NotBehind(w, w.deliveries[id].reservation))
  }

  predicate NotBehind(w: World, r: Reservation) {
    r.name in w.table && w.table[r.name].requestId == r.requestId ==> w.table[r.name].createdAt <= r.createdAt
  }

  lemma StepKeepsInTurn(w: World, act: Action)
    requires TimesOk(w) && InTurn(w) && Enabled(w, act) && Serial(w, act)
    ensures InTurn(Step(w, act))
  {
    var w' := Step(w, act);
    forall id <- w'.deliveries | w'.deliveries[id].outcome.None? ensures NotBehind(w', w'.deliveries[id].reservation) {
      assert id in w.deliveries ==> NotBehind(w, w.deliveries[id].reservation);
    }
  }

  lemma {:induction false} RunKeepsInTurn(worlds: seq<World>, acts: seq<Action>, i: nat)
    requires IsRun(worlds, acts) && i < |worlds|
    ensures TimesOk(worlds[i]) && InTurn(worlds[i])
  {
    RunKeepsTimes(worlds, acts, i);
    if i > 0 {
      RunKeepsInTurn(worlds, acts, i - 1);
      assert Enabled(worlds[i - 1], acts[i - 1]) && Serial(worlds[i - 1], acts[i - 1]);
      StepKeepsInTurn(worlds[i - 1], acts[i - 1]);
    }
  }

  /** A delivery of the request that has yet to write the name would move its expiry back. */
  predicate StalePends(w: World, name: string, requestId: string, t: int) {
    exists id <- w.deliveries ::
      w.deliveries[id].outcome.None? && Stale(w, w.deliveries[id].reservation, name, requestId, t)
  }

  lemma {:induction false} RunPendsNothingStale(worlds: seq<World>, acts: seq<Action>, i: nat, m: nat, name: string,
                                                requestId: string, t: int)
    requires Follows(worlds, acts) && i <= m < |worlds| && t <= worlds[i].now
      && !StalePends(worlds[i], name, requestId, t)
    ensures !StalePends(worlds[m], name, requestId, t) && t <= worlds[m].now && worlds[m].ttl == worlds[i].ttl
    decreases m
  {
    if i < m {
      RunPendsNothingStale(worlds, acts, i, m - 1, name, requestId, t);
      StepPendsNothingStale(worlds[m - 1], acts[m - 1], name, requestId, t);
    }
  }

  lemma StepPendsNothingStale(w: World, act: Action, name: string, requestId: string, t: int)
    requires Enabled(w, act) && t <= w.now && !StalePends(w, name, requestId, t)
    ensures var w' := Step(w, act); !StalePends(w', name, requestId, t) && w.now <= w'.now && w'.ttl == w.ttl
  {
    var w' := Step(w, act);
    SecondsGrow(t + w.ttl, w.now + w.ttl);
    forall id <- w'.deliveries | w'.deliveries[id].outcome.None?
      ensures !Stale(w', w'.deliveries[id].reservation, name, requestId, t)
    {
      assert id in w.deliveries ==> w'.deliveries[id] == w.deliveries[id];
    }
  }

  /** After a request takes a name with a clock reading of t, no other request takes it before
      the whole second of t plus the time to live. */
  lemma ExclusiveWindow(worlds: seq<World>, acts: seq<Action>, i: nat, j: nat, name: string)
    requires IsRun(worlds, acts) && i < j < |acts| && Takes(worlds[i], acts[i], name) && Takes(worlds[j], acts[j], name)
    requires worlds[j].deliveries[acts[j].id].reservation.requestId !=
      worlds[i].deliveries[acts[i].id].reservation.requestId
    ensures worlds[j].now >= EndSecond(worlds[i].ttl, worlds[i].deliveries[acts[i].id].reservation.createdAt) * SECOND
  {
    var r := worlds[i].deliveries[acts[i].id].reservation;
    if worlds[j].now < EndSecond(worlds[i].ttl, r.createdAt) * SECOND {
      OnlyStaleReplaysBreakTheWindow(worlds, acts, i, j, name);
      var m :| i < m < j && StaleReplay(worlds[m], acts[m], name, r.requestId, r.createdAt);
      RunKeepsInTurn(worlds, acts, i);
      NothingStalePends(worlds[i], acts[i]);
      RunPendsNothingStale(worlds, acts, i + 1, m, name, r.requestId, r.createdAt);
      assert false;
    }
  }

  /** A delivery that writes was the only one of its request about to. */
  lemma NothingStalePends(w: World, act: Action)
    requires TimesOk(w) && InTurn(w) && act.Write? && Enabled(w, act)
    ensures var r := w.deliveries[act.id].reservation;
      !StalePends(Step(w, act), r.name, r.requestId, r.createdAt) && r.createdAt <= Step(w, act).now
  {
  }

  /** In any run, a replay by the holder brings the stored expiry forward exactly when its own
      clock reading, to the second its window ends in, is behind the stored one. */
  lemma ReplayShortensIff(worlds: seq<World>, acts: seq<Action>, i: nat, name: string)
    requires Follows(worlds, acts) && i < |acts| && Takes(worlds[i], acts[i], name) && name in worlds[i].table
    ensures name in worlds[i + 1].table && worlds[i + 1].table[name].requestId == worlds[i].table[name].requestId
    ensures var w := worlds[i];
      worlds[i + 1].table[name].expiresAtSecond < w.table[name].expiresAtSecond <==>
      (w.deliveries[acts[i].id].reservation.createdAt + w.ttl) / SECOND < (w.table[name].createdAt + w.ttl) / SECOND
  {
    RunKeepsTimes(worlds, acts, i);
    assert worlds[i + 1] == Step(worlds[i], acts[i]);
  }

  /** With deliveries of a request one after another it never does. */
  lemma ReplayNeverShortens(worlds: seq<World>, acts: seq<Action>, i: nat, name: string)
    requires IsRun(worlds, acts) && i < |acts| && Takes(worlds[i], acts[i], name) && name in worlds[i].table
    ensures name in worlds[i + 1].table && worlds[i + 1].table[name].requestId == worlds[i].table[name].requestId
    ensures worlds[i].table[name].expiresAtSecond <= worlds[i + 1].table[name].expiresAtSecond
  {
    RunKeepsInTurn(worlds, acts, i);
    ReplayShortensIff(worlds, acts, i, name);
    var r := worlds[i].deliveries[acts[i].id].reservation;
    assert NotBehind(worlds[i], r);
    SecondsGrow(worlds[i].table[name].createdAt + worlds[i].ttl, r.createdAt + worlds[i].ttl);
  }

  /** In any run, overlapping deliveries included, what the caller is told exceeds what is
      stored by less than a second. */
  lemma ReportIsWithinASecond(worlds: seq<World>, acts: seq<Action>, i: nat, name: string)
    requires Follows(worlds, acts) && i < |acts| && Takes(worlds[i], acts[i], name) && acts[i].fault.Clean?
    ensures var outcome := worlds[i + 1].deliveries[acts[i].id].outcome;
      && outcome.Some? && outcome.value.Reserved? && name in worlds[i + 1].table
      && outcome.value.alreadyReserved == (name in worlds[i].table)
      && 0 <= outcome.value.expiresAt - worlds[i + 1].table[name].expiresAtSecond * SECOND < SECOND
  {
    assert worlds[i + 1] == Step(worlds[i], acts[i]);
  }

  /** Overlapping deliveries of one request are why the order matters: a delivery that read the
      clock first and writes last moves the stored expiry back. */
  lemma StaleReplayShortens(name: string, requestId: string) returns (worlds: seq<World>, acts: seq<Action>)
    requires Names.Valid(name) && !Records.Blank(requestId)
    ensures Follows(worlds, acts) && |worlds| == 6
    ensures Takes(worlds[3], acts[3], name)
      && worlds[3].deliveries[acts[3].id].reservation == Reservation(name, requestId, SECOND, 2 * SECOND)
    ensures worlds[5].ttl == SECOND == worlds[5].now && worlds[5].deliveries.Keys == {1, 2}
    ensures worlds[5].table == map[name := Item(requestId, 0, 1)]
    ensures name in worlds[4].table && name in worlds[5].table
    ensures worlds[5].table[name].expiresAtSecond < worlds[4].table[name].expiresAtSecond
  {
    var early, late := Reservation(name, requestId, 0, SECOND), Reservation(name, requestId, SECOND, 2 * SECOND);
    var w0 := World(SECOND, 0, map[], map[]);
    var w1 := Step(w0, Read(1, name, requestId));
    var w2 := Step(w1, Tick(SECOND));
    var w3 := Step(w2, Read(2, name, requestId));
    var w4 := Step(w3, Write(2, Clean));
    var w5 := Step(w4, Write(1, Clean));
    worlds := [w0, w1, w2, w3, w4, w5];
    acts := [Read(1, name, requestId), Tick(SECOND), Read(2, name, requestId), Write(2, Clean), Write(1, Clean)];
    assert w3.deliveries[1].reservation == early && w3.deliveries[2].reservation == late;
    assert w4.table == map[name := ToItem(late)];
    assert w5.table[name] == ToItem(early);
  }
}
