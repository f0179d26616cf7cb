/** What creating repositories guarantees over every run. */
module RepositoryTheorems {
  import opened Common
  import opened RepositoryRecord
  import opened RecordStore
  import opened RepositoryProtocol
  import Names = ApplicationName

  lemma {:induction false} RunKeepsInv(worlds: seq<World>, acts: seq<Action>, i: nat)
    requires IsRun(worlds, acts) && i < |worlds|
    ensures Inv(worlds[i])
  {
    if i > 0 {
      RunKeepsInv(worlds, acts, i - 1);
      assert Next(worlds[i - 1], acts[i - 1], worlds[i]);
      StepKeepsInv(worlds[i - 1], acts[i - 1]);
    }
  }

  // ---- Slot ownership ----

  /** A claimed slot keeps its request for ever, and its item is always the slot's own,
      marked created exactly when it holds a hosted repository of the same name. */
  lemma {:induction false} SlotOwnership(worlds: seq<World>, acts: seq<Action>, i: nat, j: nat, slot: string)
    requires IsRun(worlds, acts) && i <= j < |worlds| && slot in worlds[i].records
    ensures slot in worlds[j].records && worlds[j].records[slot].requestId == worlds[i].records[slot].requestId
    ensures SlotOf(worlds[j].records[slot]) == slot && Consistent(worlds[j].records[slot])
    decreases j
  {
    RunKeepsInv(worlds, acts, j);
    if i < j {
      SlotOwnership(worlds, acts, i, j - 1, slot);
      RunKeepsInv(worlds, acts, j - 1);
      assert Next(worlds[j - 1], acts[j - 1], worlds[j]);
      StepKeepsOwners(worlds[j - 1], acts[j - 1]);
    }
    assert RecordOk(worlds[j], slot);
  }

  /** A claim or a save by any other request changes nothing, and a clean one is a conflict. */
  lemma ForeignWritesFail(worlds: seq<World>, acts: seq<Action>, i: nat)
    requires IsRun(worlds, acts) && i < |acts| && (acts[i].ClaimSlot? || acts[i].Save?)
      && acts[i].id in worlds[i].deliveries
    requires var d := worlds[i].deliveries[acts[i].id];
      var slot := SlotAt(worlds[i], acts[i].id);
      slot in worlds[i].records && worlds[i].records[slot].requestId != d.requestId
    ensures worlds[i + 1].records == worlds[i].records
    ensures acts[i].fault.Clean? ==> worlds[i + 1].deliveries[acts[i].id].pc == Finished(Conflict)
  {
    RunKeepsInv(worlds, acts, i);
    assert Next(worlds[i], acts[i], worlds[i + 1]);
    assert DeliveryOk(worlds[i], acts[i].id);
  }

  /** The action is an effective claim of the slot by its own request. */
  predicate Reclaims(w: World, act: Action, slot: string) {
    && act.ClaimSlot? && TakesEffect(act.fault) && act.id in w.deliveries && SlotAt(w, act.id) == slot
    && slot in w.records && w.deliveries[act.id].requestId == w.records[slot].requestId
  }

  lemma ClaimRewindsIff(w: World, id: nat, fault: Fault, slot: string)
    requires Inv(w) && Enabled(w, ClaimSlot(id, fault)) && slot in w.records && w.records[slot].status.Created?
    ensures slot in Step(w, ClaimSlot(id, fault)).records
    ensures Step(w, ClaimSlot(id, fault)).records[slot].status.Claimed? <==> Reclaims(w, ClaimSlot(id, fault), slot)
  {
    assert DeliveryOk(w, id);
  }

  lemma SaveRewindsNothing(w: World, id: nat, fault: Fault, slot: string)
    requires Inv(w) && Enabled(w, Save(id, fault)) && slot in w.records && w.records[slot].status.Created?
    ensures slot in StepSave(w, id, fault).records && StepSave(w, id, fault).records[slot].status.Created?
  {
    assert DeliveryOk(w, id);
  }

  lemma StepRewindsIff(w: World, act: Action, slot: string)
    requires Inv(w) && Enabled(w, act) && slot in w.records && w.records[slot].status.Created?
    ensures slot in Step(w, act).records
    ensures Step(w, act).records[slot].status.Claimed? <==> Reclaims(w, act, slot)
  {
    match act
    case ClaimSlot(id, fault) => ClaimRewindsIff(w, id, fault, slot);
    case Save(id, fault) => SaveRewindsNothing(w, id, fault, slot);
    case _ =>
  }

  /** A created record goes back to a bare claim at exactly one kind of step: the claim of
      another delivery of the request that owns it. */
  lemma CreatedIsRewoundIff(worlds: seq<World>, acts: seq<Action>, i: nat, slot: string)
    requires IsRun(worlds, acts) && i < |acts| && slot in worlds[i].records && worlds[i].records[slot].status.Created?
    ensures slot in worlds[i + 1].records
    ensures worlds[i + 1].records[slot].status.Claimed? <==> Reclaims(worlds[i], acts[i], slot)
  {
    RunKeepsInv(worlds, acts, i);
    assert Next(worlds[i], acts[i], worlds[i + 1]);
    StepRewindsIff(worlds[i], acts[i], slot);
  }

  // ---- Adoption ----

  /** A hosted repository was made by a delivery that had claimed its slot. */
  predicate Made(w: World, key: string) {
    && key in w.creator && w.creator[key].Some? && w.creator[key].value in w.deliveries
    && var maker := w.creator[key].value;
      && var d := w.deliveries[maker];
        && key == HostKey(w, d.name) && Names.Valid(d.name) && HeldBy(w.records, SlotAt(w, maker), d.requestId)
        && Over(d.pc)
  }

  /** The delivery is past its own create. */
  predicate Over(pc: Pc) {
    pc.Finished? || (pc.Saving? && !pc.alreadyExisted)
  }

  /** The repository a delivery holds or has reported, and whether as an existing one. */
  function Repository(pc: Pc): Option<(Hosted, bool)> {
    if pc.Saving? then Some((pc.repository, pc.alreadyExisted))
    else if pc.Finished? && pc.outcome.Success? then Some((pc.outcome.repository, pc.outcome.alreadyExisted))
    else None
  }

  predicate Adopts(pc: Pc) {
    (pc.Saving? && pc.alreadyExisted) || (pc.Finished? && pc.outcome.Success? && pc.outcome.alreadyExisted)
  }

  /** An adopted repository was made by another delivery of the same request. */
  predicate RightlyAdopted(w: World, id: nat)
    requires id in w.deliveries
  {
    var d := w.deliveries[id];
    && d.source.Some? && d.source.value != id && d.source.value in w.deliveries
    && var maker := w.deliveries[d.source.value];
      maker.requestId == d.requestId && maker.name == d.name && Over(maker.pc)
  }

  /** The delivery is about the repository under this key. */
  predicate About(w: World, id: nat, key: string)
    requires id in w.deliveries
  {
    HostKey(w, w.deliveries[id].name) == key
  }

  predicate AdoptionInv(w: World, key: string) {
    && Inv(w)
    && (key in w.repos ==> Made(w, key))
    && (forall id <- w.deliveries | About(w, id, key) :: Adopts(w.deliveries[id].pc) ==> RightlyAdopted(w, id))
  }

  /** A delivery never changes its request or its name, and stays past its create. */
  predicate Forward(w: World, w': World) {
    w'.owner == w.owner && forall id <- w.deliveries ::
      id in w'.deliveries && ForwardAt(w.deliveries[id], w'.deliveries[id])
  }

  predicate ForwardAt(before: Delivery, after: Delivery) {
    && after.requestId == before.requestId && after.name == before.name
    && (Over(before.pc) ==> Over(after.pc))
    && (Adopts(after.pc) ==>
          before.pc.Finding? || (Adopts(before.pc) && Repository(after.pc) == Repository(before.pc)))
    && (!before.pc.Finding? ==> after.source == before.source)
    && (before.pc.Finished? ==> after == before)
  }

  lemma StepIsForward(w: World, act: Action)
    requires Enabled(w, act)
    ensures Forward(w, Step(w, act))
  {
    var w' := Step(w, act);
    if act.Remove? || act.CreateOutside? {
      assert w'.deliveries == w.deliveries;
    } else {
      MovesOne(w, act);
      if act.id in w.deliveries {
        MovesForward(w, act);
      }
    }
  }

  lemma MovesOne(w: World, act: Action)
    requires Enabled(w, act) && !act.Remove? && !act.CreateOutside?
    ensures var w' := Step(w, act);
      w'.owner == w.owner && act.id in w'.deliveries && w'.deliveries == w.deliveries[act.id := w'.deliveries[act.id]]
  {
    match act
    case Start(_, _, _, _, _) =>
    case ClaimSlot(_, _) =>
    case Create(_, _) =>
    case Find(_, _) =>
    case Save(_, _) =>
    case Crash(_) =>
  }

  lemma CreateMovesForward(w: World, id: nat, fault: Fault)
    requires Enabled(w, Create(id, fault))
    ensures id in StepCreate(w, id, fault).deliveries
      && ForwardAt(w.deliveries[id], StepCreate(w, id, fault).deliveries[id])
  {
  }

  lemma SaveMovesForward(w: World, id: nat, fault: Fault)
    requires Enabled(w, Save(id, fault))
    ensures id in StepSave(w, id, fault).deliveries
      && ForwardAt(w.deliveries[id], StepSave(w, id, fault).deliveries[id])
  {
  }

  lemma MovesForward(w: World, act: Action)
    requires Enabled(w, act) && !act.Remove? && !act.CreateOutside? && act.id in w.deliveries
    ensures act.id in Step(w, act).deliveries && ForwardAt(w.deliveries[act.id], Step(w, act).deliveries[act.id])
  {
    match act
    case ClaimSlot(_, _) =>
    case Create(id, fault) => CreateMovesForward(w, id, fault);
    case Find(_, _) =>
    case Save(id, fault) => SaveMovesForward(w, id, fault);
    case Crash(_) =>
  }

  lemma StaysMade(w: World, w': World, key: string)
    requires Made(w, key) && Forward(w, w') && OwnersKept(w, w')
    requires key in w'.creator && w'.creator[key] == w.creator[key]
    ensures Made(w', key)
  {
  }

  lemma StaysAdopted(w: World, w': World, id: nat)
    requires id in w.deliveries && RightlyAdopted(w, id) && Forward(w, w')
      && w'.deliveries[id].source == w.deliveries[id].source
    ensures RightlyAdopted(w', id)
  {
  }

  /** A repository is found under the name of the delivery that looks for it, whose slot its
      request holds; the maker held that slot too. */
  lemma FindAdopts(w: World, id: nat, fault: Fault)
    requires Enabled(w, Find(id, fault)) && AdoptionInv(w, HostKey(w, w.deliveries[id].name))
    ensures var w' := Step(w, Find(id, fault)); Adopts(w'.deliveries[id].pc) ==> RightlyAdopted(w', id)
  {
    var key := HostKey(w, w.deliveries[id].name);
    assert DeliveryOk(w, id);
    if fault.Clean? && key in w.repos {
      assert Made(w, key);
      var maker := w.creator[key].value;
      FoldIsInjectiveOnNames(w.owner, w.deliveries[maker].name, w.deliveries[id].name);
    }
  }

  /** What is under the key on the host stays there. */
  predicate HostKeeps(w: World, w': World, key: string) {
    && w'.owner == w.owner
    && (key in w.repos ==>
          && key in w'.repos && w'.repos[key] == w.repos[key]
          && (key in w.creator ==> key in w'.creator && w'.creator[key] == w.creator[key]))
  }

  lemma StepKeepsHost(w: World, act: Action, key: string)
    requires Enabled(w, act) && !RemovalAt(w, act, key)
    ensures HostKeeps(w, Step(w, act), key)
  {
    match act
    case Create(_, _) =>
    case CreateOutside(_) =>
    case Remove(_) =>
    case _ =>
  }

  lemma CreateMakes(w: World, id: nat, fault: Fault)
    requires Inv(w) && Enabled(w, Create(id, fault)) && HostKey(w, w.deliveries[id].name) !in w.repos
      && TakesEffect(fault)
    ensures Made(StepCreate(w, id, fault), HostKey(w, w.deliveries[id].name))
  {
    assert DeliveryOk(w, id);
    assert StepCreate(w, id, fault).creator[HostKey(w, w.deliveries[id].name)] == Some(id);
  }

  lemma CreateAddsOne(w: World, id: nat, fault: Fault)
    requires Enabled(w, Create(id, fault))
    ensures forall key <- StepCreate(w, id, fault).repos | key !in w.repos ::
      key == HostKey(w, w.deliveries[id].name) && TakesEffect(fault)
  {
  }

  lemma CreateKeepsMade(w: World, id: nat, fault: Fault, key: string)
    requires AdoptionInv(w, key) && Enabled(w, Create(id, fault)) && key in StepCreate(w, id, fault).repos
    ensures Made(StepCreate(w, id, fault), key)
  {
    if key in w.repos {
      assert Made(w, key);
      StepIsForward(w, Create(id, fault));
      StepKeepsOwners(w, Create(id, fault));
      StepKeepsHost(w, Create(id, fault), key);
      StaysMade(w, StepCreate(w, id, fault), key);
    } else {
      CreateAddsOne(w, id, fault);
      CreateMakes(w, id, fault);
    }
  }

  /** Only a create and an outsider add to the host. */
  lemma OthersMakeNothing(w: World, act: Action, key: string)
    requires Enabled(w, act) && !OutsiderAt(w, act, key) && !act.Create? && key in Step(w, act).repos
    ensures var w' := Step(w, act);
      key in w.repos && (key in w.creator ==> key in w'.creator && w'.creator[key] == w.creator[key])
  {
  }

  lemma StepKeepsMade(w: World, act: Action, key: string)
    requires AdoptionInv(w, key) && Enabled(w, act) && !OutsiderAt(w, act, key) && key in Step(w, act).repos
    ensures Made(Step(w, act), key)
  {
    if act.Create? {
      CreateKeepsMade(w, act.id, act.fault, key);
    } else {
      OthersMakeNothing(w, act, key);
      assert Made(w, key);
      StepIsForward(w, act);
      StepKeepsOwners(w, act);
      StaysMade(w, Step(w, act), key);
    }
  }

  lemma StepKeepsAdopted(w: World, act: Action, id: nat, key: string)
    requires AdoptionInv(w, key) && Enabled(w, act)
    requires id in Step(w, act).deliveries && About(Step(w, act), id, key) && Adopts(Step(w, act).deliveries[id].pc)
    ensures RightlyAdopted(Step(w, act), id)
  {
    StepIsForward(w, act);
    if act.Find? && id == act.id {
      FindAdopts(w, id, act.fault);
    } else {
      OnlyFindAdopts(w, act, id);
      StaysAdopted(w, Step(w, act), id);
    }
  }

  lemma OnlyFindAdopts(w: World, act: Action, id: nat)
    requires Enabled(w, act) && !(act.Find? && id == act.id)
    requires id in Step(w, act).deliveries && Adopts(Step(w, act).deliveries[id].pc)
    ensures id in w.deliveries && Adopts(w.deliveries[id].pc)
      && Step(w, act).deliveries[id].source == w.deliveries[id].source
  {
    if !act.Remove? && !act.CreateOutside? {
      MovesOne(w, act);
      if act.id == id && id in w.deliveries {
        MovesForward(w, act);
      }
    }
  }

  lemma StepKeepsAdoption(w: World, act: Action, key: string)
    requires AdoptionInv(w, key) && Enabled(w, act) && !OutsiderAt(w, act, key)
    ensures AdoptionInv(Step(w, act), key)
  {
    var w' := Step(w, act);
    StepKeepsInv(w, act);
    if key in w'.repos {
      StepKeepsMade(w, act, key);
    }
    forall id <- w'.deliveries | About(w', id, key) && Adopts(w'.deliveries[id].pc) ensures RightlyAdopted(w', id) {
      StepKeepsAdopted(w, act, id, key);
    }
  }

  lemma StepOfRun(worlds: seq<World>, acts: seq<Action>, i: nat)
    requires IsRun(worlds, acts) && i < |acts|
    ensures Enabled(worlds[i], acts[i]) && worlds[i + 1] == Step(worlds[i], acts[i]) && acts[i] in acts
  {
    assert Next(worlds[i], acts[i], worlds[i + 1]);
  }

  lemma InitAdopts(w: World, key: string)
    requires Init(w)
    ensures AdoptionInv(w, key)
  {
  }

  lemma {:induction false} RunKeepsAdoption(worlds: seq<World>, acts: seq<Action>, i: nat, key: string)
    requires IsRun(worlds, acts) && i < |worlds| && NoOutsidersAt(worlds, acts, i, key)
    ensures AdoptionInv(worlds[i], key)
  {
    if i > 0 {
      RunKeepsAdoption(worlds, acts, i - 1, key);
      StepOfRun(worlds, acts, i - 1);
      StepKeepsAdoption(worlds[i - 1], acts[i - 1], key);
    } else {
      InitAdopts(worlds[0], key);
    }
  }

  /** The maker's create takes effect and leaves this repository under the key. */
  predicate Mints(w: World, act: Action, maker: nat, key: string, repository: Hosted) {
    && act.Create? && act.id == maker && Enabled(w, act) && TakesEffect(act.fault)
    && HostKey(w, w.deliveries[maker].name) == key && key !in w.repos
    && repository == Mint(w, w.deliveries[maker].name)
  }

  /** Before world i the maker's create left this repository under the key. */
  predicate MintedBefore(worlds: seq<World>, acts: seq<Action>, i: nat, maker: nat, key: string, repository: Hosted)
    requires i <= |acts| < |worlds|
  {
    exists m | 0 <= m < i :: Mints(worlds[m], acts[m], maker, key, repository)
  }

  lemma MintedLater(worlds: seq<World>, acts: seq<Action>, i: nat, maker: nat, key: string, repository: Hosted)
    requires i < |acts| < |worlds| && MintedBefore(worlds, acts, i, maker, key, repository)
    ensures MintedBefore(worlds, acts, i + 1, maker, key, repository)
  {
    var m :| 0 <= m < i && Mints(worlds[m], acts[m], maker, key, repository);
  }

  /** The host has this repository of the maker's under the key. */
  predicate HostedBy(w: World, maker: nat, key: string, repository: Hosted) {
    key in w.repos && w.repos[key] == repository && key in w.creator && w.creator[key] == Some(maker)
  }

  lemma CreateMints(w: World, id: nat, fault: Fault, maker: nat, key: string, repository: Hosted)
    requires Enabled(w, Create(id, fault)) && HostedBy(StepCreate(w, id, fault), maker, key, repository)
    ensures Mints(w, Create(id, fault), maker, key, repository) || HostedBy(w, maker, key, repository)
  {
  }

  lemma HostedStepMints(w: World, act: Action, maker: nat, key: string, repository: Hosted)
    requires Enabled(w, act) && HostedBy(Step(w, act), maker, key, repository)
    ensures Mints(w, act, maker, key, repository) || HostedBy(w, maker, key, repository)
  {
    match act
    case Create(id, fault) => CreateMints(w, id, fault, maker, key, repository);
    case _ =>
  }

  /** What is on the host with a recorded maker is what that maker's create left there. */
  lemma {:induction false} HostedWasMinted(worlds: seq<World>, acts: seq<Action>, i: nat,
                                           maker: nat, key: string, repository: Hosted)
    requires IsRun(worlds, acts) && i < |worlds| && HostedBy(worlds[i], maker, key, repository)
    ensures MintedBefore(worlds, acts, i, maker, key, repository)
    decreases i
  {
    if i > 0 {
      StepOfRun(worlds, acts, i - 1);
      HostedStepMints(worlds[i - 1], acts[i - 1], maker, key, repository);
      if HostedBy(worlds[i - 1], maker, key, repository) {
        HostedWasMinted(worlds, acts, i - 1, maker, key, repository);
        MintedLater(worlds, acts, i - 1, maker, key, repository);
      }
    }
  }

  /** The delivery has adopted this repository of the maker's. */
  predicate Adopted(d: Delivery, maker: nat, repository: Hosted) {
    Adopts(d.pc) && d.source == Some(maker) && Repository(d.pc).value.0 == repository
  }

  lemma FindTakes(w: World, id: nat, fault: Fault, maker: nat, repository: Hosted)
    requires Enabled(w, Find(id, fault)) && Adopted(Step(w, Find(id, fault)).deliveries[id], maker, repository)
    ensures HostedBy(w, maker, HostKey(w, w.deliveries[id].name), repository)
  {
  }

  /** A delivery that has adopted had done so before, or has just found it on the host. */
  lemma AdoptedStep(w: World, act: Action, id: nat, maker: nat, key: string, repository: Hosted)
    requires Enabled(w, act) && id in Step(w, act).deliveries && About(Step(w, act), id, key)
    requires Adopted(Step(w, act).deliveries[id], maker, repository)
    ensures id in w.deliveries && About(w, id, key)
    ensures Adopted(w.deliveries[id], maker, repository) || HostedBy(w, maker, key, repository)
  {
    StepIsForward(w, act);
    if act.Find? && act.id == id {
      FindTakes(w, id, act.fault, maker, repository);
    } else {
      OnlyFindAdopts(w, act, id);
    }
  }

  lemma AdoptedStepOfRun(worlds: seq<World>, acts: seq<Action>, i: nat, id: nat,
                         maker: nat, key: string, repository: Hosted)
    requires IsRun(worlds, acts) && i < |acts| && id in worlds[i + 1].deliveries && About(worlds[i + 1], id, key)
    requires Adopted(worlds[i + 1].deliveries[id], maker, repository)
    ensures id in worlds[i].deliveries && About(worlds[i], id, key)
    ensures Adopted(worlds[i].deliveries[id], maker, repository)
      || MintedBefore(worlds, acts, i, maker, key, repository)
  {
    StepOfRun(worlds, acts, i);
    AdoptedStep(worlds[i], acts[i], id, maker, key, repository);
    if HostedBy(worlds[i], maker, key, repository) {
      HostedWasMinted(worlds, acts, i, maker, key, repository);
    }
  }

  lemma {:induction false} AdoptedWasMinted(worlds: seq<World>, acts: seq<Action>, i: nat, id: nat,
                                            maker: nat, key: string, repository: Hosted)
    requires IsRun(worlds, acts) && i < |worlds| && id in worlds[i].deliveries && About(worlds[i], id, key)
    requires Adopted(worlds[i].deliveries[id], maker, repository)
    ensures MintedBefore(worlds, acts, i, maker, key, repository)
    decreases i
  {
    if i == 0 {
      assert false;
    } else {
      AdoptedStepOfRun(worlds, acts, i - 1, id, maker, key, repository);
      if Adopted(worlds[i - 1].deliveries[id], maker, repository) {
        AdoptedWasMinted(worlds, acts, i - 1, id, maker, key, repository);
      }
      MintedLater(worlds, acts, i - 1, maker, key, repository);
    }
  }

  /** If only this protocol creates the repository, whoever adopts it adopts the very one that
      an earlier delivery of the same request created, whatever the interleaving. */
  lemma AdoptionSoundness(worlds: seq<World>, acts: seq<Action>, i: nat, id: nat)
    requires IsRun(worlds, acts) && i < |worlds| && id in worlds[i].deliveries && Adopts(worlds[i].deliveries[id].pc)
    requires NoOutsidersAt(worlds, acts, i, HostKey(worlds[i], worlds[i].deliveries[id].name))
    ensures RightlyAdopted(worlds[i], id)
    ensures var d := worlds[i].deliveries[id];
      MintedBefore(worlds, acts, i, d.source.value, HostKey(worlds[i], d.name), Repository(d.pc).value.0)
  {
    var d, key := worlds[i].deliveries[id], HostKey(worlds[i], worlds[i].deliveries[id].name);
    RunKeepsAdoption(worlds, acts, i, key);
    AdoptedWasMinted(worlds, acts, i, id, d.source.value, key, Repository(d.pc).value.0);
  }

  // ---- Finding ----

  lemma RunKeepsHost(worlds: seq<World>, acts: seq<Action>, m: nat, key: string)
    requires IsRun(worlds, acts) && m < |acts| && !RemovalAt(worlds[m], acts[m], key)
    ensures HostKeeps(worlds[m], worlds[m + 1], key)
  {
    StepOfRun(worlds, acts, m);
    StepKeepsHost(worlds[m], acts[m], key);
  }

  predicate Hosts(w: World, key: string, repository: Hosted) {
    key in w.repos && w.repos[key] == repository
  }

  lemma {:induction false} RepositoryStays(worlds: seq<World>, acts: seq<Action>, i: nat, j: nat, key: string,
                                           repository: Hosted)
    requires IsRun(worlds, acts) && i <= j < |worlds| && NoRemovalsAt(worlds, acts, j, key)
    requires Hosts(worlds[i], key, repository)
    ensures Hosts(worlds[j], key, repository)
    decreases j - i
  {
    if i < j {
      RunKeepsHost(worlds, acts, i, key);
      RepositoryStays(worlds, acts, i + 1, j, key, repository);
    }
  }

  /** A clean find returns the very repository that a create made under the name, whatever its
      case, even if that create reported a fault. */
  lemma FindReturnsWhatWasMade(worlds: seq<World>, acts: seq<Action>, i: nat, j: nat)
    requires IsRun(worlds, acts) && i < j < |acts| && acts[i].Create? && TakesEffect(acts[i].fault)
      && acts[i].id in worlds[i].deliveries
    requires acts[j].Find? && acts[j].fault.Clean? && acts[j].id in worlds[j].deliveries
    requires var key := HostKey(worlds[i], worlds[i].deliveries[acts[i].id].name);
      key !in worlds[i].repos && About(worlds[j], acts[j].id, key) && NoRemovalsAt(worlds, acts, j, key)
    ensures worlds[j + 1].deliveries[acts[j].id].pc ==
      Saving(Mint(worlds[i], worlds[i].deliveries[acts[i].id].name), true)
  {
    StepOfRun(worlds, acts, i);
    StepOfRun(worlds, acts, j);
    var name := worlds[i].deliveries[acts[i].id].name;
    RepositoryStays(worlds, acts, i + 1, j, HostKey(worlds[i], name), Mint(worlds[i], name));
  }

  // ---- Agreement ----

  /** What a delivery holds is what the host has, and if it did not adopt it, it made it. */
  predicate Agrees(w: World, id: nat)
    requires id in w.deliveries
  {
    var d, key := w.deliveries[id], HostKey(w, w.deliveries[id].name);
    && (d.pc.Finding? ==> key in w.repos)
    && (Repository(d.pc).Some? ==>
          && key in w.repos && w.repos[key] == Repository(d.pc).value.0
          && (!Repository(d.pc).value.1 ==> key in w.creator && w.creator[key] == Some(id)))
  }

  predicate AgreementInv(w: World, key: string) {
    forall id <- w.deliveries | About(w, id, key) :: Agrees(w, id)
  }

  lemma CreatedAgrees(w: World, id: nat, fault: Fault)
    requires Enabled(w, Create(id, fault))
    ensures id in StepCreate(w, id, fault).deliveries && Agrees(StepCreate(w, id, fault), id)
  {
    var key := HostKey(w, w.deliveries[id].name);
    if fault.Clean? && key !in w.repos {
      assert StepCreate(w, id, fault).repos[key] == Mint(w, w.deliveries[id].name);
    }
  }

  lemma SavedAgrees(w: World, id: nat, fault: Fault)
    requires Enabled(w, Save(id, fault)) && Agrees(w, id)
    ensures id in StepSave(w, id, fault).deliveries && Agrees(StepSave(w, id, fault), id)
  {
  }

  /** The delivery that moves takes its repository from the host, or makes it there. */
  lemma MovedAgrees(w: World, act: Action)
    requires Enabled(w, act) && !act.Remove? && !act.CreateOutside?
    requires act.id in w.deliveries ==> Agrees(w, act.id)
    ensures act.id in Step(w, act).deliveries && Agrees(Step(w, act), act.id)
  {
    match act
    case Start(_, _, _, _, _) =>
    case ClaimSlot(_, _) =>
    case Create(id, fault) => CreatedAgrees(w, id, fault);
    case Find(_, _) =>
    case Save(id, fault) => SavedAgrees(w, id, fault);
    case Crash(_) =>
  }

  lemma StaysAgreed(w: World, w': World, id: nat, key: string)
    requires id in w.deliveries && About(w, id, key) && Agrees(w, id) && HostKeeps(w, w', key)
    requires id in w'.deliveries && w'.deliveries[id] == w.deliveries[id]
    ensures Agrees(w', id)
  {
  }

  lemma StepKeepsAgreement(w: World, act: Action, key: string)
    requires AgreementInv(w, key) && Enabled(w, act) && !RemovalAt(w, act, key)
    ensures AgreementInv(Step(w, act), key)
  {
    var w' := Step(w, act);
    StepKeepsHost(w, act, key);
    StepIsForward(w, act);
    if !act.CreateOutside? && !act.Remove? {
      MovesOne(w, act);
    }
    forall id <- w'.deliveries | About(w', id, key) ensures Agrees(w', id) {
      if !act.CreateOutside? && !act.Remove? && id == act.id {
        MovedAgrees(w, act);
      } else {
        StaysAgreed(w, w', id, key);
      }
    }
  }

  lemma {:induction false} RunKeepsAgreement(worlds: seq<World>, acts: seq<Action>, i: nat, key: string)
    requires IsRun(worlds, acts) && i < |worlds| && NoRemovalsAt(worlds, acts, i, key)
    ensures AgreementInv(worlds[i], key)
  {
    if i > 0 {
      RunKeepsAgreement(worlds, acts, i - 1, key);
      StepOfRun(worlds, acts, i - 1);
      StepKeepsAgreement(worlds[i - 1], acts[i - 1], key);
    }
  }

  /** If the host neither deletes nor renames it, all successful deliveries for one slot return
      the same repository, and at most one of them reports that it did not exist before. */
  lemma SuccessAgreement(worlds: seq<World>, acts: seq<Action>, i: nat, a: nat, b: nat)
    requires IsRun(worlds, acts) && i < |worlds|
    requires a in worlds[i].deliveries && b in worlds[i].deliveries
      && worlds[i].deliveries[a].name == worlds[i].deliveries[b].name
    requires NoRemovalsAt(worlds, acts, i, HostKey(worlds[i], worlds[i].deliveries[a].name))
    requires var pc := worlds[i].deliveries[a].pc; pc.Finished? && pc.outcome.Success?
    requires var pc := worlds[i].deliveries[b].pc; pc.Finished? && pc.outcome.Success?
    ensures var p, q := worlds[i].deliveries[a].pc.outcome, worlds[i].deliveries[b].pc.outcome;
      p.repository == q.repository && (!p.alreadyExisted && !q.alreadyExisted ==> a == b)
  {
    RunKeepsAgreement(worlds, acts, i, HostKey(worlds[i], worlds[i].deliveries[a].name));
    assert Agrees(worlds[i], a) && Agrees(worlds[i], b);
  }

  // ---- Conflicts ----

  predicate FirstFree(w: World, id: nat)
    requires id in w.deliveries
  {
    w.deliveries[id].pc.Creating? && w.deliveries[id].pc.first ==> HostKey(w, w.deliveries[id].name) !in w.repos
  }

  predicate Alone(w: World) {
    forall a, b | a in w.deliveries && b in w.deliveries ::
      w.deliveries[a].requestId == w.deliveries[b].requestId && At(w, a) && At(w, b) ==> a == b
  }

  predicate SerialInv(w: World, key: string) {
    && AdoptionInv(w, key) && AgreementInv(w, key) && Alone(w)
    && forall id <- w.deliveries | About(w, id, key) :: FirstFree(w, id)
  }

  /** A first claim found its slot free, so no repository can have been made for it. */
  lemma FirstClaimIsFree(w: World, name: string)
    requires AdoptionInv(w, HostKey(w, name)) && Names.Valid(name)
    requires Slot(w.owner, name) !in w.records
    ensures HostKey(w, name) !in w.repos
  {
    var key := HostKey(w, name);
    if key in w.repos {
      assert Made(w, key);
      FoldIsInjectiveOnNames(w.owner, w.deliveries[w.creator[key].value].name, name);
    }
  }

  lemma StepKeepsAlone(w: World, act: Action)
    requires Alone(w) && Enabled(w, act) && Serial(w, act)
    ensures Alone(Step(w, act))
  {
    var w' := Step(w, act);
    StepIsForward(w, act);
    if !act.Remove? && !act.CreateOutside? {
      MovesOne(w, act);
    }
    forall a, b | a in w'.deliveries && b in w'.deliveries && At(w', a) && At(w', b)
        && w'.deliveries[a].requestId == w'.deliveries[b].requestId
      ensures a == b
    {
      assert a in w.deliveries ==> At(w, a);
      assert b in w.deliveries ==> At(w, b);
    }
  }

  /** Another delivery creating the same repository would be one of the same request, and so
      the same delivery. */
  lemma CreateKeepsFree(w: World, id: nat, fault: Fault, other: nat, key: string)
    requires SerialInv(w, key) && Enabled(w, Create(id, fault)) && other in w.deliveries && other != id
      && About(w, other, key)
    ensures FirstFree(StepCreate(w, id, fault), other)
  {
    assert DeliveryOk(w, id) && DeliveryOk(w, other) && FirstFree(w, other);
    if w.deliveries[other].pc.Creating? && HostKey(w, w.deliveries[id].name) == HostKey(w, w.deliveries[other].name) {
      FoldIsInjectiveOnNames(w.owner, w.deliveries[id].name, w.deliveries[other].name);
      assert At(w, id) && At(w, other);
      assert false;
    }
  }

  lemma ClaimKeepsFree(w: World, id: nat, fault: Fault)
    requires Enabled(w, ClaimSlot(id, fault)) && AdoptionInv(w, HostKey(w, w.deliveries[id].name))
    ensures FirstFree(Step(w, ClaimSlot(id, fault)), id)
  {
    assert DeliveryOk(w, id);
    if SlotAt(w, id) !in w.records {
      FirstClaimIsFree(w, w.deliveries[id].name);
    }
  }

  lemma OnlyClaimsStartCreating(w: World, act: Action)
    requires Enabled(w, act) && !act.Remove? && !act.CreateOutside? && !act.ClaimSlot?
    ensures act.id in Step(w, act).deliveries && !Step(w, act).deliveries[act.id].pc.Creating?
  {
    match act
    case Start(_, _, _, _, _) =>
    case Create(_, _) =>
    case Find(_, _) =>
    case Save(_, _) =>
    case Crash(_) =>
  }

  lemma StaysFree(w: World, w': World, id: nat)
    requires id in w.deliveries && FirstFree(w, id) && id in w'.deliveries && w'.deliveries[id] == w.deliveries[id]
    requires w'.owner == w.owner
    requires HostKey(w, w.deliveries[id].name) in w'.repos ==> HostKey(w, w.deliveries[id].name) in w.repos
    ensures FirstFree(w', id)
  {
  }

  /** A delivery that does not move stays free of its repository. */
  lemma OthersStayFree(w: World, act: Action, id: nat, key: string)
    requires SerialInv(w, key) && Enabled(w, act) && !OutsiderAt(w, act, key)
    requires id in w.deliveries && About(w, id, key) && id in Step(w, act).deliveries
    requires Step(w, act).deliveries[id] == w.deliveries[id] && (act.Create? ==> act.id != id)
    ensures FirstFree(Step(w, act), id)
  {
    if act.Create? {
      CreateKeepsFree(w, act.id, act.fault, id, key);
    } else {
      if key in Step(w, act).repos {
        OthersMakeNothing(w, act, key);
      }
      StepIsForward(w, act);
      StaysFree(w, Step(w, act), id);
    }
  }

  lemma StepKeepsFree(w: World, act: Action, id: nat, key: string)
    requires SerialInv(w, key) && Enabled(w, act) && !OutsiderAt(w, act, key)
    requires id in Step(w, act).deliveries && About(Step(w, act), id, key)
    ensures FirstFree(Step(w, act), id)
  {
    StepIsForward(w, act);
    if act.CreateOutside? || act.Remove? {
      OthersStayFree(w, act, id, key);
    } else if act.id != id {
      MovesOne(w, act);
      OthersStayFree(w, act, id, key);
    } else if act.ClaimSlot? {
      ClaimKeepsFree(w, id, act.fault);
    } else {
      OnlyClaimsStartCreating(w, act);
    }
  }

  lemma StepKeepsSerial(w: World, act: Action, key: string)
    requires SerialInv(w, key) && Enabled(w, act) && Serial(w, act) && !OutsiderAt(w, act, key)
      && !RemovalAt(w, act, key)
    ensures SerialInv(Step(w, act), key)
  {
    StepKeepsAdoption(w, act, key);
    StepKeepsAgreement(w, act, key);
    StepKeepsAlone(w, act);
    forall id <- Step(w, act).deliveries | About(Step(w, act), id, key) ensures FirstFree(Step(w, act), id) {
      StepKeepsFree(w, act, id, key);
    }
  }

  lemma {:induction false} RunKeepsSerial(worlds: seq<World>, acts: seq<Action>, i: nat, key: string)
    requires IsRun(worlds, acts) && SerialRun(worlds, acts) && i < |worlds|
    requires NoOutsidersAt(worlds, acts, i, key) && NoRemovalsAt(worlds, acts, i, key)
    ensures SerialInv(worlds[i], key)
  {
    if i > 0 {
      RunKeepsSerial(worlds, acts, i - 1, key);
      StepOfRun(worlds, acts, i - 1);
      assert Serial(worlds[i - 1], acts[i - 1]);
      StepKeepsSerial(worlds[i - 1], acts[i - 1], key);
    }
  }

  /** The delivery the action moves, if it is one's. */
  predicate Raises(w: World, act: Action) {
    && Calls(act) && Enabled(w, act)
    && Step(w, act).deliveries[act.id].pc == Finished(Conflict)
  }

  predicate Calls(act: Action) {
    act.ClaimSlot? || act.Create? || act.Find? || act.Save?
  }

  /** The repository the action's delivery is about. */
  function KeyOf(w: World, act: Action): string
    requires Calls(act) && Enabled(w, act)
  {
    HostKey(w, w.deliveries[act.id].name)
  }

  /** With deliveries of a request one after another, a host that neither deletes nor renames
      the repository and nobody else creating it, a conflict is raised only for a slot that a
      different request owns. */
  lemma ConflictSoundness(worlds: seq<World>, acts: seq<Action>, i: nat)
    requires IsRun(worlds, acts) && SerialRun(worlds, acts) && i < |acts| && Raises(worlds[i], acts[i])
    requires NoOutsidersAt(worlds, acts, i, KeyOf(worlds[i], acts[i]))
      && NoRemovalsAt(worlds, acts, i, KeyOf(worlds[i], acts[i]))
    ensures var slot := SlotAt(worlds[i], acts[i].id);
      slot in worlds[i].records && worlds[i].records[slot].requestId != worlds[i].deliveries[acts[i].id].requestId
  {
    RunKeepsSerial(worlds, acts, i, KeyOf(worlds[i], acts[i]));
    ConflictCauses(worlds, acts, i);
    assert FirstFree(worlds[i], acts[i].id);
  }

  /** Without the condition on overlaps there is one more cause, and only one: a delivery that
      claimed first finds the repository that another delivery of its own request made. */
  lemma ConflictCauses(worlds: seq<World>, acts: seq<Action>, i: nat)
    requires IsRun(worlds, acts) && i < |acts| && Calls(acts[i]) && Enabled(worlds[i], acts[i])
    requires NoOutsidersAt(worlds, acts, i, KeyOf(worlds[i], acts[i]))
      && NoRemovalsAt(worlds, acts, i, KeyOf(worlds[i], acts[i]))
    ensures var w, id := worlds[i], acts[i].id;
      Raises(w, acts[i]) <==> (acts[i].fault.Clean? && (
        || (acts[i].ClaimSlot? && SlotAt(w, id) in w.records
            && w.records[SlotAt(w, id)].requestId != w.deliveries[id].requestId)
        || (acts[i].Create? && w.deliveries[id].pc.first && KeyOf(w, acts[i]) in w.repos)))
    ensures var w, id := worlds[i], acts[i].id;
      acts[i].Create? && Raises(w, acts[i]) ==>
        exists maker <- w.deliveries ::
          maker != id && w.deliveries[maker].requestId == w.deliveries[id].requestId
            && w.deliveries[maker].name == w.deliveries[id].name
  {
    var w, id, key := worlds[i], acts[i].id, KeyOf(worlds[i], acts[i]);
    RunKeepsAdoption(worlds, acts, i, key);
    RunKeepsAgreement(worlds, acts, i, key);
    assert DeliveryOk(w, id) && Agrees(w, id);
    if acts[i].Create? && Raises(w, acts[i]) {
      assert Made(w, key);
      FoldIsInjectiveOnNames(w.owner, w.deliveries[w.creator[key].value].name, w.deliveries[id].name);
      assert w.creator[key].value in w.deliveries;
    }
  }
}
