/** The GitHub client cache: a client and its token's expiry in two fields, read without a
    lock on the fast path and written under one. Every field access and clock reading is a
    step of its own, and the steps of any number of calls interleave. Times are counted from
    the smallest one, the value the expiry field starts with. */
module TokenCache {
  import opened Common

  /** Renew a token this long before it expires: five minutes, in ticks of a ten-millionth of
      a second. */
  const RENEW_BEFORE := 3_000_000_000

  datatype Token = Token(expiry: int)

  datatype Pc =
    | FastClient | FastClock | FastExpiry | FastReturn
    | Waiting
    | SlowClient | SlowClock | SlowExpiry | SlowReturn
    | Signing(licence: Option<int>)                   // about to read the clock for the signed request
    | Minting(licence: Option<int>, signed: int)
    | WriteClient(token: Token, licence: Option<int>)
    | WriteExpiry(token: Token)
    | ReadBack
    | Leaving(result: Option<Token>)                  // about to release the gate
    | Done(client: Option<Token>)
    | Failed

  /** A call: where it stands, and the last clock value it read. */
  datatype Call = Call(pc: Pc, seen: Option<int>)

  /** A mint: the clock reading that found the previous token stale, if there was one. */
  datatype Mint = Mint(licence: Option<int>, expiry: int)

  datatype World = World(
    now: int,
    client: Option<Token>,
    expiresAt: int,
    holder: Option<nat>,
    calls: map<nat, Call>,
    mints: seq<Mint>)

  datatype Action =
    | Enter(id: nat)
    | Move(id: nat)                  // the call's next field access, clock reading or release
    | Acquire(id: nat)
    | Exchange(id: nat, expiry: int) // the request is exchanged for a token
    | Break(id: nat)                 // waiting is cancelled, or minting throws
    | Tick(now: int)

  /** Inside the gate. */
  predicate Inside(pc: Pc) {
    || pc.SlowClient? || pc.SlowClock? || pc.SlowExpiry? || pc.SlowReturn? || pc.Signing? || pc.Minting?
    || pc.WriteClient? || pc.WriteExpiry? || pc.ReadBack? || pc.Leaving?
  }

  predicate Moves(pc: Pc) {
    !pc.Waiting? && !pc.Minting? && !pc.Done? && !pc.Failed?
  }

  predicate Enabled(w: World, act: Action) {
    match act
    case Enter(id) => id !in w.calls
    case Move(id) => id in w.calls && Moves(w.calls[id].pc)
    case Acquire(id) => id in w.calls && w.calls[id].pc.Waiting? && w.holder.None?
    case Exchange(id, _) => id in w.calls && w.calls[id].pc.Minting?
    case Break(id) => id in w.calls && (w.calls[id].pc.Waiting? || w.calls[id].pc.Signing? || w.calls[id].pc.Minting?)
    case Tick(now) => 0 <= now
  }

  predicate StillFresh(seen: int, expiresAt: int) {
    seen < expiresAt - RENEW_BEFORE
  }

  function Goto(w: World, id: nat, call: Call): World {
    w.(calls := w.calls[id := call])
  }

  function Step(w: World, act: Action): World
    requires Enabled(w, act)
  {
    match act
    case Enter(id) => Goto(w, id, Call(FastClient, None))
    case Move(id) => StepMove(w, id)
    case Acquire(id) => Goto(w, id, w.calls[id].(pc := SlowClient)).(holder := Some(id))
    case Exchange(id, expiry) => Goto(w, id, w.calls[id].(pc := WriteClient(Token(expiry), w.calls[id].pc.licence)))
    case Break(id) =>
      Goto(w, id, w.calls[id].(pc := Failed)).(holder := if Inside(w.calls[id].pc) then None else w.holder)
    case Tick(now) => w.(now := now)
  }

  function StepMove(w: World, id: nat): World
    requires Enabled(w, Move(id))
  {
    var call := w.calls[id];
    match call.pc
    case FastClient => Goto(w, id, call.(pc := if w.client.None? then Waiting else FastClock))
    case FastClock => Goto(w, id, Call(FastExpiry, Some(w.now)))
    case FastExpiry =>
      var usable := call.seen.Some? && StillFresh(call.seen.value, w.expiresAt);
      Goto(w, id, call.(pc := if usable then FastReturn else Waiting))
    case FastReturn => Goto(w, id, call.(pc := Done(w.client)))
    case SlowClient => Goto(w, id, call.(pc := if w.client.None? then Signing(None) else SlowClock))
    case SlowClock => Goto(w, id, Call(SlowExpiry, Some(w.now)))
    case SlowExpiry =>
      var usable := call.seen.Some? && StillFresh(call.seen.value, w.expiresAt);
      Goto(w, id, call.(pc := if usable then SlowReturn else Signing(call.seen)))
    case SlowReturn => Goto(w, id, call.(pc := Leaving(w.client)))
    case Signing(licence) => Goto(w, id, Call(Minting(licence, w.now), Some(w.now)))
    case WriteClient(token, licence) =>
      Goto(w, id, call.(pc := WriteExpiry(token)))
        .(client := Some(token), mints := w.mints + [Mint(licence, token.expiry)])
    case WriteExpiry(token) => Goto(w, id, call.(pc := ReadBack)).(expiresAt := token.expiry)
    case ReadBack => Goto(w, id, call.(pc := Leaving(w.client)))
    case Leaving(result) => Goto(w, id, call.(pc := Done(result))).(holder := None)
  }

  predicate Init(w: World) {
    0 <= w.now && w.client.None? && w.expiresAt == 0 && w.holder.None? && w.calls == map[] && w.mints == []
  }

  /** The assumption: a minted token expires more than RENEW_BEFORE after the clock readings
      its mint relied on. */
  predicate MintsAhead(w: World, act: Action) {
    act.Exchange? && Enabled(w, act) ==>
      var pc := w.calls[act.id].pc;
      act.expiry > pc.signed + RENEW_BEFORE && (pc.licence.Some? ==> act.expiry > pc.licence.value + RENEW_BEFORE)
  }

  predicate Next(w: World, act: Action, w': World) {
    Enabled(w, act) && w' == Step(w, act)
  }

  predicate IsRun(worlds: seq<World>, acts: seq<Action>) {
    && |worlds| == |acts| + 1 && Init(worlds[0])
    && forall i | 0 <= i < |acts| :: Next(worlds[i], acts[i], worlds[i + 1]) && MintsAhead(worlds[i], acts[i])
  }

  // ---- The invariant ----

  /** More than RENEW_BEFORE is left of the token at the given time. */
  predicate Lasts(token: Option<Token>, seen: Option<int>) {
    token.Some? && seen.Some? && seen.value + RENEW_BEFORE < token.value.expiry
  }

  /** The reading licenses replacing the current client. */
  predicate Licensed(w: World, licence: Option<int>) {
    if w.client.None? then licence.None?
    else licence.Some? && licence.value >= w.client.value.expiry - RENEW_BEFORE
  }

  predicate CallOk(w: World, id: nat)
    requires id in w.calls
  {
    var call := w.calls[id];
    && (Inside(call.pc) <==> w.holder == Some(id))
    && (call.seen.Some? ==> call.seen.value >= 0)
    && match call.pc
       case FastClock => w.client.Some?
       case FastExpiry => w.client.Some?
       case FastReturn => Lasts(w.client, call.seen)
       case SlowClock => w.client.Some?
       case SlowExpiry => w.client.Some? && call.seen.Some?
       case SlowReturn => Lasts(w.client, call.seen)
       case Signing(licence) => Licensed(w, licence)
       case Minting(licence, signed) => Licensed(w, licence) && call.seen == Some(signed)
       case WriteClient(token, licence) =>
         Licensed(w, licence) && Lasts(Some(token), call.seen)
           && (licence.Some? ==> token.expiry > licence.value + RENEW_BEFORE)
       case WriteExpiry(token) => w.client == Some(token) && Lasts(w.client, call.seen)
       case ReadBack => Lasts(w.client, call.seen)
       case Leaving(result) => Lasts(result, call.seen)
       case Done(client) => Lasts(client, call.seen)
       case _ => true
  }

  /** Some call has written the client and not yet the expiry. */
  predicate Halfway(w: World) {
    w.holder.Some? && w.holder.value in w.calls && w.calls[w.holder.value].pc.WriteExpiry?
  }

  /** The expiry field never runs ahead of the client field, and agrees with it except between
      the two writes. */
  predicate FieldsOk(w: World) {
    && (w.client.None? ==> w.expiresAt == 0 && !Halfway(w))
    && (w.client.Some? ==> 0 <= w.expiresAt <= w.client.value.expiry)
    && (w.client.Some? && !Halfway(w) ==> w.expiresAt == w.client.value.expiry)
  }

  predicate MintsOk(w: World) {
    && (w.client.None? <==> w.mints == [])
    && (w.client.Some? ==> w.mints[|w.mints| - 1].expiry == w.client.value.expiry)
    && forall i | 0 < i < |w.mints| ::
         && w.mints[i].licence.Some? && w.mints[i].licence.value >= w.mints[i - 1].expiry - RENEW_BEFORE
         && w.mints[i - 1].expiry < w.mints[i].expiry
  }

  predicate Inv(w: World) {
    && 0 <= w.now && FieldsOk(w) && MintsOk(w)
    && (w.holder.Some? ==> w.holder.value in w.calls)
    && forall id <- w.calls :: CallOk(w, id)
  }

  /** The client field only ever moves to a token that lasts longer. */
  predicate ClientGrows(w: World, w': World) {
    w.client.Some? ==> w'.client.Some? && w.client.value.expiry <= w'.client.value.expiry
  }

  lemma OthersStayOk(w: World, w': World, id: nat, other: nat)
    requires Inv(w) && other in w.calls && other in w'.calls && other != id && w'.calls[other] == w.calls[other]
    requires ClientGrows(w, w') && (w'.client != w.client ==> w.holder == Some(id))
    requires w'.holder == w.holder || (w.holder == Some(id) && w'.holder.None?)
      || (w.holder.None? && w'.holder == Some(id))
    ensures CallOk(w', other)
  {
    assert CallOk(w, other);
  }

  /** The call that moves, and the two fields after its move. */
  lemma MoveIsOk(w: World, id: nat)
    requires Inv(w) && Enabled(w, Move(id))
    ensures id in StepMove(w, id).calls && CallOk(StepMove(w, id), id)
  {
    assert CallOk(w, id);
  }

  lemma MoveGrowsClient(w: World, id: nat)
    requires Inv(w) && Enabled(w, Move(id))
    ensures ClientGrows(w, StepMove(w, id))
  {
    assert CallOk(w, id);
  }

  lemma MoveKeepsFields(w: World, id: nat)
    requires Inv(w) && Enabled(w, Move(id))
    ensures FieldsOk(StepMove(w, id))
  {
    assert CallOk(w, id);
    if w.holder.Some? {
      assert CallOk(w, w.holder.value);
    }
  }

  lemma MoveKeepsMints(w: World, id: nat)
    requires Inv(w) && Enabled(w, Move(id))
    ensures MintsOk(StepMove(w, id))
  {
    assert CallOk(w, id);
    if !w.calls[id].pc.WriteClient? {
      assert StepMove(w, id).mints == w.mints && StepMove(w, id).client == w.client;
    }
  }

  lemma MoveKeepsInv(w: World, id: nat)
    requires Inv(w) && Enabled(w, Move(id))
    ensures Inv(StepMove(w, id))
  {
    var w' := StepMove(w, id);
    MoveIsOk(w, id);
    MoveGrowsClient(w, id);
    MoveKeepsFields(w, id);
    MoveKeepsMints(w, id);
    assert CallOk(w, id);
    MoveWritesInside(w, id);
    forall other <- w'.calls ensures CallOk(w', other) {
      if other != id {
        OthersStayOk(w, w', id, other);
      }
    }
  }

  lemma MoveWritesInside(w: World, id: nat)
    requires Inv(w) && Enabled(w, Move(id))
    ensures var w' := StepMove(w, id);
      && w'.now == w.now && w'.calls == w.calls[id := w'.calls[id]]
      && (w'.client != w.client ==> w.holder == Some(id))
      && (w'.holder == w.holder || (w.holder == Some(id) && w'.holder.None?))
  {
    assert CallOk(w, id);
  }

  predicate Quiet(act: Action) {
    !act.Move? && !act.Tick?
  }

  lemma QuietStepIsOk(w: World, act: Action)
    requires Inv(w) && Enabled(w, act) && MintsAhead(w, act) && Quiet(act)
    ensures act.id in Step(w, act).calls && CallOk(Step(w, act), act.id)
  {
    assert act.id in w.calls ==> CallOk(w, act.id);
  }

  /** Entering, acquiring the gate, exchanging the request and breaking off touch no field. */
  lemma QuietStepTouchesNothing(w: World, act: Action)
    requires Inv(w) && Enabled(w, act) && Quiet(act)
    ensures var w' := Step(w, act);
      && w' == w.(calls := w'.calls, holder := w'.holder) && w'.calls.Keys == w.calls.Keys + {act.id}
      && (forall id <- w.calls | id != act.id :: w'.calls[id] == w.calls[id])
      && (w'.holder == w.holder || (w.holder == Some(act.id) && w'.holder.None?)
          || (w.holder.None? && w'.holder == Some(act.id)))
      && Halfway(w') == Halfway(w)
  {
    assert act.id in w.calls ==> CallOk(w, act.id);
  }

  lemma QuietStepKeepsInv(w: World, act: Action)
    requires Inv(w) && Enabled(w, act) && MintsAhead(w, act) && Quiet(act)
    ensures Inv(Step(w, act))
  {
    var w' := Step(w, act);
    QuietStepIsOk(w, act);
    QuietStepTouchesNothing(w, act);
    forall other <- w'.calls ensures CallOk(w', other) {
      if other != act.id {
        OthersStayOk(w, w', act.id, other);
      }
    }
  }

  lemma StepKeepsInv(w: World, act: Action)
    requires Inv(w) && Enabled(w, act) && MintsAhead(w, act)
    ensures Inv(Step(w, act))
  {
    match act
    case Move(id) => MoveKeepsInv(w, id);
    case Tick(now) =>
      forall id <- w.calls ensures CallOk(w.(now := now), id) {
        assert CallOk(w, id);
      }
    case _ => QuietStepKeepsInv(w, act);
  }

  lemma {:induction false} RunKeepsInv(worlds: seq<World>, acts: seq<Action>, i: nat)
    requires IsRun(worlds, acts) && i < |worlds|
    ensures Inv(worlds[i])
  {
    if i > 0 {
      RunKeepsInv(worlds, acts, i - 1);
      assert Next(worlds[i - 1], acts[i - 1], worlds[i]) && MintsAhead(worlds[i - 1], acts[i - 1]);
      StepKeepsInv(worlds[i - 1], acts[i - 1]);
    }
  }

  /** Whatever the interleaving, a call returns a client whose own token lasts more than
      RENEW_BEFORE past the clock value the call last read. */
  lemma ReturnedClientsLast(worlds: seq<World>, acts: seq<Action>, i: nat, id: nat)
    requires IsRun(worlds, acts) && i < |worlds| && id in worlds[i].calls && worlds[i].calls[id].pc.Done?
    ensures Lasts(worlds[i].calls[id].pc.client, worlds[i].calls[id].seen)
  {
    RunKeepsInv(worlds, acts, i);
    assert CallOk(worlds[i], id);
  }

  /** No token is minted before the previous one is due, and each lasts longer than the one before. */
  lemma MintsAreLicensed(worlds: seq<World>, acts: seq<Action>, i: nat, m: nat)
    requires IsRun(worlds, acts) && i < |worlds| && 0 < m < |worlds[i].mints|
    ensures var mints := worlds[i].mints;
      mints[m].licence.Some? && mints[m].licence.value >= mints[m - 1].expiry - RENEW_BEFORE
        && mints[m - 1].expiry < mints[m].expiry
  {
    RunKeepsInv(worlds, acts, i);
  }

  /** At most one call at a time is inside the gate, and so minting. */
  lemma OneMinter(worlds: seq<World>, acts: seq<Action>, i: nat, a: nat, b: nat)
    requires IsRun(worlds, acts) && i < |worlds| && a in worlds[i].calls && b in worlds[i].calls
    requires Inside(worlds[i].calls[a].pc) && Inside(worlds[i].calls[b].pc)
    ensures a == b
  {
    RunKeepsInv(worlds, acts, i);
    assert CallOk(worlds[i], a) && CallOk(worlds[i], b);
  }
}
