/** The factory as it is written. A call that nobody interleaves with is the cache protocol's
    one call, run from its entry to its return. */
module GitHubAppClientFactory {
  import opened Common
  import opened TokenCache

  /** What one call meets: the clock at its three readings, and the exchange's answer. */
  datatype Oracle = Oracle(fast: nat, slow: nat, signing: nat, minted: Option<int>)

  function Over(pc: Pc): bool {
    pc.Done? || pc.Failed?
  }

  /** The call's next action; before a clock reading the clock is set to the oracle's. */
  function Tune(w: World, id: nat, o: Oracle): World
    requires id in w.calls
  {
    match w.calls[id].pc
    case FastClock => Step(w, Tick(o.fast))
    case SlowClock => Step(w, Tick(o.slow))
    case Signing(_) => Step(w, Tick(o.signing))
    case _ => w
  }

  function NextOf(pc: Pc, id: nat, o: Oracle): Action {
    match pc
    case Waiting => Acquire(id)
    case Minting(_, _) => (match o.minted case Some(expiry) => Exchange(id, expiry) case None => Break(id))
    case _ => Move(id)
  }

  function Ahead(pc: Pc): nat {
    match pc
    case FastClient => 15 case FastClock => 14 case FastExpiry => 13 case FastReturn => 1
    case Waiting => 12
    case SlowClient => 11 case SlowClock => 10 case SlowExpiry => 9 case SlowReturn => 3
    case Signing(_) => 8 case Minting(_, _) => 7 case WriteClient(_, _) => 6 case WriteExpiry(_) => 5 case ReadBack => 4
    case Leaving(_) => 2
    case Done(_) => 0 case Failed => 0
  }

  /** A call alone, from where it stands to its end. */
  ghost function Drive(w: World, id: nat, o: Oracle): World
    requires id in w.calls && (w.calls[id].pc.Waiting? ==> w.holder.None?)
    requires w.holder.None? || Inside(w.calls[id].pc)
    decreases Ahead(w.calls[id].pc)
  {
    if Over(w.calls[id].pc) then w
    else Drive(Step(Tune(w, id, o), NextOf(w.calls[id].pc, id, o)), id, o)
  }

  // ---- A lone call is part of a run ----

  /** The oracle's token expires more than the margin after the readings its mint relied on. */
  predicate FarEnough(o: Oracle) {
    o.minted.Some? ==> o.minted.value > o.signing + RENEW_BEFORE && o.minted.value > o.slow + RENEW_BEFORE
  }

  /** The readings the call has made so far are the oracle's. */
  predicate Tuned(pc: Pc, seen: Option<int>, o: Oracle) {
    match pc
    case SlowExpiry => seen == Some(o.slow)
    case Signing(licence) => licence.Some? ==> licence.value == o.slow
    case Minting(licence, signed) => signed == o.signing && (licence.Some? ==> licence.value == o.slow)
    case _ => true
  }

  lemma ExtendRun(worlds: seq<World>, acts: seq<Action>, act: Action)
    requires IsRun(worlds, acts) && Enabled(worlds[|acts|], act) && MintsAhead(worlds[|acts|], act)
    ensures IsRun(worlds + [Step(worlds[|acts|], act)], acts + [act])
  {
    var more, moreActs := worlds + [Step(worlds[|acts|], act)], acts + [act];
    forall i | 0 <= i < |moreActs| ensures Next(more[i], moreActs[i], more[i + 1]) && MintsAhead(more[i], moreActs[i]) {
      if i < |acts| {
        assert Next(worlds[i], acts[i], worlds[i + 1]);
      }
    }
  }

  /** The clock is set for the call's next reading. */
  lemma TuneExtendsRun(worlds: seq<World>, acts: seq<Action>, id: nat, o: Oracle)
    returns (longer: seq<World>, longerActs: seq<Action>)
    requires IsRun(worlds, acts) && id in worlds[|acts|].calls
    ensures IsRun(longer, longerActs) && worlds <= longer && acts <= longerActs
    ensures longer[|longerActs|] == Tune(worlds[|acts|], id, o)
  {
    longer, longerActs := worlds, acts;
    match worlds[|acts|].calls[id].pc
    case FastClock =>
      ExtendRun(worlds, acts, Tick(o.fast));
      longer, longerActs := worlds + [Step(worlds[|acts|], Tick(o.fast))], acts + [Tick(o.fast)];
    case SlowClock =>
      ExtendRun(worlds, acts, Tick(o.slow));
      longer, longerActs := worlds + [Step(worlds[|acts|], Tick(o.slow))], acts + [Tick(o.slow)];
    case Signing(_) =>
      ExtendRun(worlds, acts, Tick(o.signing));
      longer, longerActs := worlds + [Step(worlds[|acts|], Tick(o.signing))], acts + [Tick(o.signing)];
    case _ =>
  }

  /** The call has what it needs to run alone: nobody else is inside the gate. */
  predicate Undisturbed(w: World, id: nat, o: Oracle) {
    && id in w.calls && (w.calls[id].pc.Waiting? ==> w.holder.None?) && (w.holder.None? || Inside(w.calls[id].pc))
    && Tuned(w.calls[id].pc, w.calls[id].seen, o) && FarEnough(o)
  }

  lemma StepStaysTuned(w: World, id: nat, o: Oracle)
    requires Undisturbed(w, id, o) && !Over(w.calls[id].pc)
    ensures var tuned, act := Tune(w, id, o), NextOf(w.calls[id].pc, id, o);
      && Enabled(tuned, act) && MintsAhead(tuned, act)
      && var w' := Step(tuned, act); Undisturbed(w', id, o) && Ahead(w'.calls[id].pc) < Ahead(w.calls[id].pc)
  {
  }

  /** So every theorem about runs covers a call that nobody interleaves with. */
  lemma {:induction false} DriveExtendsRun(worlds: seq<World>, acts: seq<Action>, id: nat, o: Oracle)
    returns (longer: seq<World>, longerActs: seq<Action>)
    requires IsRun(worlds, acts) && Undisturbed(worlds[|acts|], id, o)
    ensures IsRun(longer, longerActs) && worlds <= longer && acts <= longerActs
    ensures longer[|longerActs|] == Drive(worlds[|acts|], id, o)
    decreases Ahead(worlds[|acts|].calls[id].pc)
  {
    var w := worlds[|acts|];
    longer, longerActs := worlds, acts;
    if !Over(w.calls[id].pc) {
      StepStaysTuned(w, id, o);
      longer, longerActs := TuneExtendsRun(worlds, acts, id, o);
      var act := NextOf(w.calls[id].pc, id, o);
      ExtendRun(longer, longerActs, act);
      longer, longerActs := longer + [Step(longer[|longerActs|], act)], longerActs + [act];
      longer, longerActs := DriveExtendsRun(longer, longerActs, id, o);
    }
  }

  /** The cached token expires more than five minutes after the reading. */
  predicate Usable(client: Option<Token>, expiresAt: int, reading: int) {
    client.Some? && reading + 5 * 60 * 10_000_000 < expiresAt
  }

  /** What a lone call answers and leaves: the cached client as long as it is usable at either
      reading, otherwise a new one if minting works, and then for both fields. */
  predicate Serves(client: Option<Token>, expiresAt: int, o: Oracle, result: Option<Token>,
                   client': Option<Token>, expiresAt': int) {
    if Usable(client, expiresAt, o.fast) || Usable(client, expiresAt, o.slow) then
      result == client && client' == client && expiresAt' == expiresAt
    else match o.minted
      case None => result == None && client' == client && expiresAt' == expiresAt
      case Some(expiry) => result == client' == Some(Token(expiry)) && expiresAt' == expiry
  }

  class Factory {
    var client: Option<Token>
    var tokenExpiresAt: int
    var gateHeld: bool

    constructor ()
      ensures client.None? && tokenExpiresAt == 0 && !gateHeld
    {
      client, tokenExpiresAt, gateHeld := None, 0, false;
    }

    /** The cache with one call about to enter. */
    ghost function Entered(): World
      reads this
    {
      World(0, client, tokenExpiresAt, None, map[0 := Call(FastClient, None)], [])
    }

    /** None stands for an exception from minting; the gate is released all the same. */
    method GetClientAsync(o: Oracle) returns (result: Option<Token>)
      requires !gateHeld
      modifies this
      ensures !gateHeld
      ensures var end := Drive(old(Entered()), 0, o);
        && end.client == client && end.expiresAt == tokenExpiresAt && end.holder.None?
        && 0 in end.calls && end.calls[0].pc == if result.None? then Failed else Done(result)
      ensures Serves(old(client), old(tokenExpiresAt), o, result, client, tokenExpiresAt)
    {
      ghost var w := Entered();
      if client.Some? && o.fast < tokenExpiresAt - RENEW_BEFORE {
        FastCall(w, o);
        return client;
      }
      ghost var w1 := MissedCall(w, o);
      gateHeld := true;
      if client.Some? && o.slow < tokenExpiresAt - RENEW_BEFORE {
        SlowCall(w1, o);
        result := client;
      } else {
        ghost var w2 := StaleCall(w1, o);
        MintingCall(w2, o);
        if o.minted.Some? {
          client := Some(Token(o.minted.value));
          tokenExpiresAt := o.minted.value;
          result := client;
        } else {
          result := None;
        }
      }
      gateHeld := false;
    }
  }

  /** One step of a lone call. */
  function One(w: World, o: Oracle): World
    requires 0 in w.calls && !Over(w.calls[0].pc) && (w.calls[0].pc.Waiting? ==> w.holder.None?)
  {
    Step(Tune(w, 0, o), NextOf(w.calls[0].pc, 0, o))
  }

  predicate Standing(w: World, client: Option<Token>, expiresAt: int, holder: Option<nat>, pc: Pc) {
    w.client == client && w.expiresAt == expiresAt && w.holder == holder && 0 in w.calls && w.calls[0].pc == pc
  }

  /** The fast path finds a client that is still fresh. */
  lemma FastCall(w: World, o: Oracle)
    requires Standing(w, w.client, w.expiresAt, None, FastClient) && w.client.Some? && StillFresh(o.fast, w.expiresAt)
    ensures Standing(Drive(w, 0, o), w.client, w.expiresAt, None, Done(w.client))
  {
    var a := One(w, o);
    var b := One(a, o);
    var c := One(b, o);
    var d := One(c, o);
    assert Drive(w, 0, o) == Drive(a, 0, o) == Drive(b, 0, o);
    assert Drive(b, 0, o) == Drive(c, 0, o) == Drive(d, 0, o) == d;
  }

  /** It does not, and the call gets the gate. */
  lemma MissedCall(w: World, o: Oracle) returns (w': World)
    requires Standing(w, w.client, w.expiresAt, None, FastClient)
      && !(w.client.Some? && StillFresh(o.fast, w.expiresAt))
    ensures Standing(w', w.client, w.expiresAt, Some(0), SlowClient) && Drive(w, 0, o) == Drive(w', 0, o)
  {
    var a := One(w, o);
    assert Drive(w, 0, o) == Drive(a, 0, o);
    if w.client.Some? {
      var b := One(a, o);
      var c := One(b, o);
      assert Drive(a, 0, o) == Drive(b, 0, o) == Drive(c, 0, o);
      w' := One(c, o);
      assert Drive(c, 0, o) == Drive(w', 0, o);
    } else {
      w' := One(a, o);
      assert Drive(a, 0, o) == Drive(w', 0, o);
    }
  }

  /** The check inside the gate finds that another call has renewed it. */
  lemma SlowCall(w: World, o: Oracle)
    requires Standing(w, w.client, w.expiresAt, Some(0), SlowClient) && w.client.Some?
      && StillFresh(o.slow, w.expiresAt)
    ensures Standing(Drive(w, 0, o), w.client, w.expiresAt, None, Done(w.client))
  {
    var a := One(w, o);
    var b := One(a, o);
    var c := One(b, o);
    var d := One(c, o);
    var e := One(d, o);
    assert Drive(w, 0, o) == Drive(a, 0, o) == Drive(b, 0, o);
    assert Drive(b, 0, o) == Drive(c, 0, o) == Drive(d, 0, o);
    assert Drive(d, 0, o) == Drive(e, 0, o) == e;
  }

  lemma StaleCall(w: World, o: Oracle) returns (w': World)
    requires Standing(w, w.client, w.expiresAt, Some(0), SlowClient)
      && !(w.client.Some? && StillFresh(o.slow, w.expiresAt))
    ensures Standing(w', w.client, w.expiresAt, Some(0), Signing(if w.client.Some? then Some(o.slow) else None))
    ensures Drive(w, 0, o) == Drive(w', 0, o)
  {
    w' := One(w, o);
    assert Drive(w, 0, o) == Drive(w', 0, o);
    if w.client.Some? {
      var b := One(w', o);
      assert Drive(w', 0, o) == Drive(b, 0, o);
      w' := One(b, o);
      assert Drive(b, 0, o) == Drive(w', 0, o);
    }
  }

  lemma MintingCall(w: World, o: Oracle)
    requires w.holder == Some(0) && 0 in w.calls && w.calls[0].pc.Signing?
    ensures var end := Drive(w, 0, o);
      if o.minted.None? then Standing(end, w.client, w.expiresAt, None, Failed)
      else Standing(end, Some(Token(o.minted.value)), o.minted.value, None, Done(Some(Token(o.minted.value))))
  {
    var a := One(w, o);
    var b := One(a, o);
    assert Drive(w, 0, o) == Drive(a, 0, o) == Drive(b, 0, o);
    if o.minted.Some? {
      WritingCall(b, Token(o.minted.value), o);
    }
  }

  lemma WritingCall(w: World, token: Token, o: Oracle)
    requires w.holder == Some(0) && 0 in w.calls && w.calls[0].pc.WriteClient? && w.calls[0].pc.token == token
    ensures Standing(Drive(w, 0, o), Some(token), token.expiry, None, Done(Some(token)))
  {
    var c := One(w, o);
    var d := One(c, o);
    var e := One(d, o);
    var f := One(e, o);
    assert Drive(w, 0, o) == Drive(c, 0, o) == Drive(d, 0, o);
    assert Drive(d, 0, o) == Drive(e, 0, o) == Drive(f, 0, o) == f;
  }
}
