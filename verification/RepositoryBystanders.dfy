/** Crash convergence in company: deliveries for other names, and outsiders and removals under
    other names, go on in between. */
module RepositoryBystanders {
  import opened Common
  import opened RepositoryRecord
  import opened RepositoryProtocol
  import opened RepositoryConvergence
  import Names = ApplicationName

  /** The action may happen around the command: whatever is done under its name is done by its
      own deliveries. */
  predicate Allowed(w: World, c: Command, act: Action) {
    match act
    case Start(_, requestId, rawName, template, _) =>
      Names.Trim(rawName) == NameOf(c) ==> requestId == c.requestId && template == c.template
    case CreateOutside(name) => HostKey(w, name) != HostKey(w, NameOf(c))
    case Remove(name) => HostKey(w, name) != HostKey(w, NameOf(c))
    case _ => true
  }

  /** A delivery for the command's name is one of the command, and if it holds a repository, it
      is the one on the host. */
  predicate OwnOrDone(w: World, c: Command, id: nat)
    requires id in w.deliveries
  {
    var d, key := w.deliveries[id], HostKey(w, NameOf(c));
    d.name == NameOf(c) && !d.pc.Finished? ==>
      && d.requestId == c.requestId && d.template == c.template
      && (d.pc.Saving? ==> key in w.repos && d.pc.repository == w.repos[key])
  }

  /** The command's slot and name are in the hands of the command's own deliveries. */
  predicate Undisturbed(w: World, c: Command) {
    Inv(w) && Ready(w, c) && forall id <- w.deliveries :: OwnOrDone(w, c, id)
  }

  lemma OtherNameOtherKey(w: World, c: Command, id: nat)
    requires Inv(w) && Names.Valid(NameOf(c)) && At(w, id) && w.deliveries[id].name != NameOf(c)
    ensures HostKey(w, w.deliveries[id].name) != HostKey(w, NameOf(c)) && SlotAt(w, id) != Slot(w.owner, NameOf(c))
  {
    assert DeliveryOk(w, id);
    if HostKey(w, w.deliveries[id].name) == HostKey(w, NameOf(c)) {
      FoldIsInjectiveOnNames(w.owner, w.deliveries[id].name, NameOf(c));
    }
    if SlotAt(w, id) == Slot(w.owner, NameOf(c)) {
      SlotsDistinguishNames(w.owner, w.deliveries[id].name, NameOf(c));
    }
  }

  /** The command's part of the world. */
  predicate Apart(w: World, w': World, c: Command) {
    var slot, key := Slot(w.owner, NameOf(c)), HostKey(w, NameOf(c));
    && w'.owner == w.owner && w'.host == w.host
    && (slot in w'.records <==> slot in w.records) && (slot in w.records ==> w'.records[slot] == w.records[slot])
    && (key in w'.repos <==> key in w.repos) && (key in w.repos ==> w'.repos[key] == w.repos[key])
  }

  lemma ApartStaysReady(w: World, w': World, c: Command)
    requires Ready(w, c) && Apart(w, w', c)
    ensures Ready(w', c)
  {
  }

  lemma OtherClaimStaysApart(w: World, c: Command, id: nat, fault: Fault)
    requires Inv(w) && Names.Valid(NameOf(c)) && Enabled(w, ClaimSlot(id, fault)) && w.deliveries[id].name != NameOf(c)
    ensures Apart(w, Step(w, ClaimSlot(id, fault)), c)
  {
    OtherNameOtherKey(w, c, id);
    assert DeliveryOk(w, id);
  }

  lemma OtherCreateStaysApart(w: World, c: Command, id: nat, fault: Fault)
    requires Inv(w) && Names.Valid(NameOf(c)) && Enabled(w, Create(id, fault)) && w.deliveries[id].name != NameOf(c)
    ensures Apart(w, StepCreate(w, id, fault), c)
  {
    OtherNameOtherKey(w, c, id);
  }

  lemma OtherSaveStaysApart(w: World, c: Command, id: nat, fault: Fault)
    requires Inv(w) && Names.Valid(NameOf(c)) && Enabled(w, Save(id, fault)) && w.deliveries[id].name != NameOf(c)
    ensures Apart(w, StepSave(w, id, fault), c)
  {
    OtherNameOtherKey(w, c, id);
    if Promoted(w, id).Some? {
      SlotOfPromoted(w, id);
    }
  }

  /** A delivery for another name leaves the command's slot and repository alone. */
  lemma BystanderStaysApart(w: World, c: Command, act: Action)
    requires Inv(w) && Names.Valid(NameOf(c)) && Enabled(w, act) && Allowed(w, c, act)
    requires !act.CreateOutside? && !act.Remove? ==> act.id in w.deliveries ==> w.deliveries[act.id].name != NameOf(c)
    ensures Apart(w, Step(w, act), c)
  {
    match act
    case ClaimSlot(id, fault) => OtherClaimStaysApart(w, c, id, fault);
    case Create(id, fault) => OtherCreateStaysApart(w, c, id, fault);
    case Save(id, fault) => OtherSaveStaysApart(w, c, id, fault);
    case _ =>
  }

  lemma OwnClaimStaysReady(w: World, c: Command, id: nat, fault: Fault)
    requires Undisturbed(w, c) && Enabled(w, ClaimSlot(id, fault)) && w.deliveries[id].name == NameOf(c)
    ensures Ready(Step(w, ClaimSlot(id, fault)), c)
  {
    assert DeliveryOk(w, id) && OwnOrDone(w, c, id);
  }

  lemma OwnCreateStaysReady(w: World, c: Command, id: nat, fault: Fault)
    requires Undisturbed(w, c) && Enabled(w, Create(id, fault)) && w.deliveries[id].name == NameOf(c)
    ensures Ready(StepCreate(w, id, fault), c)
  {
    assert DeliveryOk(w, id) && OwnOrDone(w, c, id);
  }

  lemma OwnSaveStaysReady(w: World, c: Command, id: nat, fault: Fault)
    requires Undisturbed(w, c) && Enabled(w, Save(id, fault)) && w.deliveries[id].name == NameOf(c)
    ensures Ready(StepSave(w, id, fault), c)
  {
    assert DeliveryOk(w, id) && OwnOrDone(w, c, id);
  }

  /** The command's own deliveries keep its slot and name ready for the next. */
  lemma OwnStepStaysReady(w: World, c: Command, act: Action)
    requires Undisturbed(w, c) && Enabled(w, act) && !act.CreateOutside? && !act.Remove?
    requires act.id in w.deliveries && w.deliveries[act.id].name == NameOf(c)
    ensures Ready(Step(w, act), c)
  {
    match act
    case ClaimSlot(id, fault) => OwnClaimStaysReady(w, c, id, fault);
    case Create(id, fault) => OwnCreateStaysReady(w, c, id, fault);
    case Save(id, fault) => OwnSaveStaysReady(w, c, id, fault);
    case Find(_, _) =>
    case Crash(_) =>
  }

  lemma StepStaysReady(w: World, c: Command, act: Action)
    requires Undisturbed(w, c) && Names.Valid(NameOf(c)) && Enabled(w, act) && Allowed(w, c, act)
    ensures Ready(Step(w, act), c)
  {
    if !act.CreateOutside? && !act.Remove? && act.id in w.deliveries && w.deliveries[act.id].name == NameOf(c) {
      OwnStepStaysReady(w, c, act);
    } else {
      BystanderStaysApart(w, c, act);
      ApartStaysReady(w, Step(w, act), c);
    }
  }

  /** The repository under the command's name, once made, stays. */
  lemma StepKeepsRepository(w: World, c: Command, act: Action)
    requires Enabled(w, act) && Allowed(w, c, act)
    ensures var key, w' := HostKey(w, NameOf(c)), Step(w, act);
      w'.owner == w.owner && w'.host == w.host && (key in w.repos ==> key in w'.repos && w'.repos[key] == w.repos[key])
  {
    match act
    case Create(_, _) =>
    case CreateOutside(_) =>
    case Remove(_) =>
    case _ =>
  }

  lemma CreatedIsOwnOrDone(w: World, c: Command, id: nat, fault: Fault)
    requires Undisturbed(w, c) && Enabled(w, Create(id, fault))
    ensures id in StepCreate(w, id, fault).deliveries && OwnOrDone(StepCreate(w, id, fault), c, id)
  {
    assert OwnOrDone(w, c, id);
  }

  lemma MovedIsOwnOrDone(w: World, c: Command, act: Action)
    requires Undisturbed(w, c) && Enabled(w, act) && Allowed(w, c, act) && !act.CreateOutside? && !act.Remove?
    ensures act.id in Step(w, act).deliveries && OwnOrDone(Step(w, act), c, act.id)
  {
    assert act.id in w.deliveries ==> OwnOrDone(w, c, act.id);
    match act
    case Start(_, _, _, _, _) =>
    case ClaimSlot(_, _) =>
    case Create(id, fault) => CreatedIsOwnOrDone(w, c, id, fault);
    case Find(_, _) =>
    case Save(_, _) =>
    case Crash(_) =>
  }

  lemma OthersStayOwnOrDone(w: World, w': World, c: Command, id: nat)
    requires id in w.deliveries && OwnOrDone(w, c, id) && id in w'.deliveries && w'.deliveries[id] == w.deliveries[id]
    requires var key := HostKey(w, NameOf(c));
      w'.owner == w.owner && (key in w.repos ==> key in w'.repos && w'.repos[key] == w.repos[key])
    ensures OwnOrDone(w', c, id)
  {
  }

  lemma StepStaysUndisturbed(w: World, c: Command, act: Action)
    requires Undisturbed(w, c) && Names.Valid(NameOf(c)) && Enabled(w, act) && Allowed(w, c, act)
    ensures Undisturbed(Step(w, act), c) && Step(w, act).owner == w.owner && Step(w, act).host == w.host
  {
    var w' := Step(w, act);
    StepKeepsInv(w, act);
    StepStaysReady(w, c, act);
    StepKeepsRepository(w, c, act);
    if !act.CreateOutside? && !act.Remove? {
      MovedIsOwnOrDone(w, c, act);
      OnlyOneMoves(w, act);
    }
    forall id <- w'.deliveries ensures OwnOrDone(w', c, id) {
      if act.CreateOutside? || act.Remove? || id != act.id {
        OthersStayOwnOrDone(w, w', c, id);
      }
    }
  }

  lemma {:induction false} PlayStaysUndisturbed(w: World, c: Command, acts: seq<Action>)
    requires Undisturbed(w, c) && Names.Valid(NameOf(c)) && Plays(w, acts) && forall act <- acts :: Allowed(w, c, act)
    ensures Undisturbed(Play(w, acts), c) && Play(w, acts).owner == w.owner && Play(w, acts).host == w.host
    decreases acts
  {
    if acts != [] {
      assert acts[0] in acts && forall act <- acts[1..] :: act in acts;
      StepStaysUndisturbed(w, c, acts[0]);
      forall act <- acts[1..] ensures Allowed(Step(w, acts[0]), c, act) {
        assert Allowed(w, c, act);
      }
      PlayStaysUndisturbed(Step(w, acts[0]), c, acts[1..]);
    }
  }

  /** Two worlds in which the command succeeded: the same under its name but for the time of the
      claim, the host's number and whether the repository was there already; and its last
      delivery changed nothing under any other name. */
  predicate SameUnderItsName(before: World, end: World, alone: World, c: Command, id: nat, time: int) {
    var slot, key := Slot(before.owner, NameOf(c)), HostKey(before, NameOf(c));
    && slot in end.records && slot in alone.records && key in end.repos && key in alone.repos
    && id in end.deliveries && id in alone.deliveries
    && SameRepository(end.repos[key], alone.repos[key])
    && end.records[slot].status.Created? && end.records[slot].hosted == Some(end.repos[key])
    && alone.records[slot].hosted == Some(alone.repos[key])
    && end.records[slot] == alone.records[slot].(createdAt := time, hosted := Some(end.repos[key]))
    && end.deliveries[id].pc == Finished(Success(end.repos[key], key in before.repos))
    && alone.deliveries[id].pc == Finished(Success(alone.repos[key], false))
    && end.records - {slot} == before.records - {slot} && end.repos - {key} == before.repos - {key}
  }

  lemma ConvergedUnderItsName(w: World, before: World, c: Command, end: World, alone: World, id: nat, time: int,
                              aloneTime: int)
    requires Vacant(w, c) && Ready(before, c) && before.owner == w.owner && before.host == w.host
    requires Converged(before, end, id, c, time) && Converged(w, alone, id, c, aloneTime)
    ensures SameUnderItsName(before, end, alone, c, id, time)
  {
    var slot, key := Slot(before.owner, NameOf(c)), HostKey(before, NameOf(c));
    assert end.records - {slot} == before.records - {slot} && end.repos - {key} == before.repos - {key};
  }

  /** Crash convergence among others: from any reachable world in which the slot and the name
      are vacant and nobody else is at work on them, let any deliveries of the command be
      interrupted anywhere while anything at all happens under other names. One more delivery
      without faults then succeeds as it would have alone. */
  lemma ConvergenceAmongOthers(w: World, c: Command, acts: seq<Action>, id: nat, time: int, aloneTime: int)
    requires Inv(w) && Acceptable(w, c) && Vacant(w, c)
    requires forall other <- w.deliveries :: w.deliveries[other].name == NameOf(c) ==> w.deliveries[other].pc.Finished?
    requires Plays(w, acts) && forall act <- acts :: Allowed(w, c, act)
    requires id !in w.deliveries && id !in Play(w, acts).deliveries
    ensures var before := Play(w, acts);
      var existed := HostKey(w, NameOf(c)) in before.repos;
      && Plays(before, CleanRun(id, c, time, existed)) && Plays(w, CleanRun(id, c, aloneTime, false))
      && SameUnderItsName(before, Play(before, CleanRun(id, c, time, existed)),
                          Play(w, CleanRun(id, c, aloneTime, false)), c, id, time)
  {
    PlayStaysUndisturbed(w, c, acts);
    CleanRunConverges(Play(w, acts), id, c, time);
    CleanRunConverges(w, id, c, aloneTime);
    var before := Play(w, acts);
    var existed := HostKey(w, NameOf(c)) in before.repos;
    ConvergedUnderItsName(w, before, c, Play(before, CleanRun(id, c, time, existed)),
                          Play(w, CleanRun(id, c, aloneTime, false)), id, time, aloneTime);
  }
}
