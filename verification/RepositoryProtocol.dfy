/** Creating repositories under at-least-once delivery: any number of deliveries, on any
    number of workers, interleave their calls on the inventory and on the host. Every call may
    take effect and still report a fault, and a delivery may die between any two calls. */
module RepositoryProtocol {
  import opened Common
  import opened RepositoryRecord
  import opened RecordStore
  import Names = ApplicationName

  datatype Outcome =
    | Success(repository: Hosted, alreadyExisted: bool)
    | Conflict                 // REPOSITORY_ALREADY_EXISTS
    | InvalidName
    | Faulted                  // a fault, a crash or a rejected argument: the delivery reports nothing

  datatype Pc =
    | Claiming(claim: Record)
    | Creating(first: bool)
    | Finding
    | Saving(repository: Hosted, alreadyExisted: bool)
    | Finished(outcome: Outcome)

  /** One delivery of a request. For an adopted repository, `source` keeps as history who had
      created it. */
  datatype Delivery = Delivery(requestId: string, name: string, template: string, now: int, pc: Pc, source: Option<nat>)

  /** The host's own ways: how it spells the owner, where it serves repositories, and the
      branch it initialises. */
  datatype Host = Host(login: string, site: string, branch: string)

  /** The inventory, the host and the deliveries. `creator` keeps as history which delivery
      created each hosted repository, if any did. */
  datatype World = World(
    owner: string,
    host: Host,
    records: Records,
    repos: map<string, Hosted>,
    nextId: nat,
    deliveries: map<nat, Delivery>,
    creator: map<string, Option<nat>>)

  datatype Action =
    | Start(id: nat, requestId: string, rawName: string, template: string, now: int)
    | ClaimSlot(id: nat, fault: Fault)
    | Create(id: nat, fault: Fault)
    | Find(id: nat, fault: Fault)
    | Save(id: nat, fault: Fault)
    | Crash(id: nat)
    | CreateOutside(name: string)
    | Remove(name: string)

  /** The host compares names without regard to case. */
  function HostKey(w: World, name: string): string {
    Fold(FullName(w.owner, name))
  }

  /** The repository the host makes for a name, as it reports it. */
  function Mint(w: World, name: string): Hosted {
    var url := w.host.site + FullName(w.host.login, name);
    Hosted(w.nextId, w.host.login, name, url, url + ".git", w.host.branch)
  }

  predicate At(w: World, id: nat) {
    id in w.deliveries && !w.deliveries[id].pc.Finished?
  }

  predicate Enabled(w: World, act: Action) {
    match act
    case Start(id, _, _, _, _) => id !in w.deliveries
    case ClaimSlot(id, _) => id in w.deliveries && w.deliveries[id].pc.Claiming?
    case Create(id, _) => id in w.deliveries && w.deliveries[id].pc.Creating?
    case Find(id, _) => id in w.deliveries && w.deliveries[id].pc.Finding?
    case Save(id, _) => id in w.deliveries && w.deliveries[id].pc.Saving?
    case Crash(id) => At(w, id)
    case CreateOutside(name) => HostKey(w, name) !in w.repos
    case Remove(name) => HostKey(w, name) in w.repos
  }

  function Goto(w: World, id: nat, pc: Pc): World
    requires id in w.deliveries
  {
    w.(deliveries := w.deliveries[id := w.deliveries[id].(pc := pc)])
  }

  function End(w: World, id: nat, outcome: Outcome): World
    requires id in w.deliveries
  {
    Goto(w, id, Finished(outcome))
  }

  function Step(w: World, act: Action): World
    requires Enabled(w, act)
  {
    match act
    case Start(id, requestId, rawName, template, now) =>
      w.(deliveries := w.deliveries[id := Started(w.owner, requestId, Names.Trim(rawName), template, now)])
    case ClaimSlot(id, fault) =>
      var d := w.deliveries[id];
      var claim := d.pc.claim;
      var slot := SlotOf(claim);
      Goto(w, id, if !fault.Clean? then Finished(Faulted)
                  else if slot !in w.records then Creating(true)
                  else if HeldBy(w.records, slot, claim.requestId) then Creating(false)
                  else Finished(Conflict)).(records := PutClaim(w.records, claim, fault))
    case Create(id, fault) => StepCreate(w, id, fault)
    case Find(id, fault) =>
      var d, key := w.deliveries[id], HostKey(w, w.deliveries[id].name);
      if !fault.Clean? then End(w, id, Faulted)
      else if key !in w.repos then End(w, id, Conflict)
      else w.(deliveries := w.deliveries[id :=
                d.(pc := Saving(w.repos[key], true), source := if key in w.creator then w.creator[key] else None)])
    case Save(id, fault) => StepSave(w, id, fault)
    case Crash(id) => End(w, id, Faulted)
    case CreateOutside(name) => MakeRepository(w, name, None)
    case Remove(name) => w.(repos := w.repos - {HostKey(w, name)})
  }

  /** The name is parsed again and the claim built before anything is called. */
  function Started(owner: string, requestId: string, name: string, template: string, now: int): Delivery {
    Delivery(requestId, name, template, now,
      if !Names.Valid(name) then Finished(InvalidName)
      else match Claim(owner, name, requestId, template, now)
        case None => Finished(Faulted)
        case Some(claim) => Claiming(claim),
      None)
  }

  function MakeRepository(w: World, name: string, maker: Option<nat>): World {
    w.(repos := w.repos[HostKey(w, name) := Mint(w, name)],
       creator := w.creator[HostKey(w, name) := maker],
       nextId := w.nextId + 1)
  }

  function StepCreate(w: World, id: nat, fault: Fault): World
    requires Enabled(w, Create(id, fault))
  {
    var d, key := w.deliveries[id], HostKey(w, w.deliveries[id].name);
    if key in w.repos then
      if !fault.Clean? then End(w, id, Faulted)
      else if d.pc.first then End(w, id, Conflict)
      else Goto(w, id, Finding)
    else
      var w' := Goto(w, id, if fault.Clean? then Saving(Mint(w, d.name), false) else Finished(Faulted));
      if TakesEffect(fault) then MakeRepository(w', d.name, Some(id)) else w'
  }

  /** The record saved is the claim built at the start, marked created. */
  function Promoted(w: World, id: nat): Option<Record>
    requires id in w.deliveries && w.deliveries[id].pc.Saving?
  {
    var d := w.deliveries[id];
    MarkCreated(Record(w.owner, d.name, d.requestId, d.template, Claimed, d.now, None), d.pc.repository)
  }

  function StepSave(w: World, id: nat, fault: Fault): World
    requires Enabled(w, Save(id, fault))
  {
    var d := w.deliveries[id];
    match Promoted(w, id)
    case None => End(w, id, Faulted)
    case Some(record) =>
      End(w, id, if !fault.Clean? then Faulted
                 else if HeldBy(w.records, SlotOf(record), record.requestId) then
                   Success(d.pc.repository, d.pc.alreadyExisted)
                 else Conflict).(records := PutCreated(w.records, record, fault))
  }

  // ---- Runs ----

  predicate Init(w: World) {
    w.records == map[] && w.repos == map[] && w.deliveries == map[] && w.creator == map[]
  }

  predicate Next(w: World, act: Action, w': World) {
    Enabled(w, act) && w' == Step(w, act)
  }

  /** Playing a sequence of actions one after another. */
  predicate Plays(w: World, acts: seq<Action>)
    decreases acts
  {
    acts == [] || (Enabled(w, acts[0]) && Plays(Step(w, acts[0]), acts[1..]))
  }

  function Play(w: World, acts: seq<Action>): World
    requires Plays(w, acts)
    decreases acts
  {
    if acts == [] then w else Play(Step(w, acts[0]), acts[1..])
  }

  /** One more action at the front. */
  lemma PlayCons(w: World, act: Action, acts: seq<Action>)
    requires Enabled(w, act) && Plays(Step(w, act), acts)
    ensures Plays(w, [act] + acts) && Play(w, [act] + acts) == Play(Step(w, act), acts)
  {
    assert ([act] + acts)[1..] == acts;
  }

  lemma {:induction false} PlayConcat(w: World, first: seq<Action>, second: seq<Action>)
    requires Plays(w, first) && Plays(Play(w, first), second)
    ensures Plays(w, first + second) && Play(w, first + second) == Play(Play(w, first), second)
    decreases first
  {
    if first == [] {
      assert first + second == second;
    } else {
      assert (first + second)[1..] == first[1..] + second;
      PlayConcat(Step(w, first[0]), first[1..], second);
    }
  }

  lemma PlayOne(w: World, act: Action)
    requires Enabled(w, act)
    ensures Plays(w, [act]) && Play(w, [act]) == Step(w, act)
  {
    assert [act][1..] == [];
  }

  predicate Follows(worlds: seq<World>, acts: seq<Action>) {
    && |worlds| == |acts| + 1
    && forall i | 0 <= i < |acts| :: Next(worlds[i], acts[i], worlds[i + 1])
  }

  /** Actions that can be played pass through a sequence of worlds, each following the last. */
  lemma {:induction false} PlaysFollows(w: World, acts: seq<Action>) returns (worlds: seq<World>)
    requires Plays(w, acts)
    ensures Follows(worlds, acts) && worlds[0] == w && worlds[|acts|] == Play(w, acts)
    decreases acts
  {
    if acts == [] {
      worlds := [w];
    } else {
      var rest := PlaysFollows(Step(w, acts[0]), acts[1..]);
      worlds := [w] + rest;
      forall i | 0 <= i < |acts| ensures Next(worlds[i], acts[i], worlds[i + 1]) {
        if i > 0 {
          assert Next(rest[i - 1], acts[1..][i - 1], rest[i]);
        }
      }
    }
  }

  predicate IsRun(worlds: seq<World>, acts: seq<Action>) {
    Follows(worlds, acts) && Init(worlds[0])
  }

  /** What can be played at the end of a run makes it a longer run. */
  lemma PlayExtendsRun(worlds: seq<World>, acts: seq<Action>, more: seq<Action>) returns (longer: seq<World>)
    requires IsRun(worlds, acts) && Plays(worlds[|acts|], more)
    ensures IsRun(longer, acts + more) && worlds <= longer && longer[|acts + more|] == Play(worlds[|acts|], more)
  {
    var tail := PlaysFollows(worlds[|acts|], more);
    longer := worlds + tail[1..];
    forall i | 0 <= i < |acts + more| ensures Next(longer[i], (acts + more)[i], longer[i + 1]) {
      if i < |acts| {
        assert Next(worlds[i], acts[i], worlds[i + 1]);
      } else {
        assert Next(tail[i - |acts|], more[i - |acts|], tail[i - |acts| + 1]);
      }
    }
  }

  /** Nobody else creates repositories under the owner. */
  predicate NoOutsiders(acts: seq<Action>) {
    forall act <- acts :: !act.CreateOutside?
  }

  /** The host neither deletes nor renames. */
  predicate NoRemovals(acts: seq<Action>) {
    forall act <- acts :: !act.Remove?
  }

  /** Somebody else creates the repository under this key. */
  predicate OutsiderAt(w: World, act: Action, key: string) {
    act.CreateOutside? && HostKey(w, act.name) == key
  }

  /** The host loses the repository under this key. */
  predicate RemovalAt(w: World, act: Action, key: string) {
    act.Remove? && HostKey(w, act.name) == key
  }

  /** Up to world i nobody else created the repository under this key. */
  predicate NoOutsidersAt(worlds: seq<World>, acts: seq<Action>, i: nat, key: string)
    requires i <= |acts| < |worlds|
  {
    forall m | 0 <= m < i :: !OutsiderAt(worlds[m], acts[m], key)
  }

  /** Up to world i the host neither deleted nor renamed the repository under this key. */
  predicate NoRemovalsAt(worlds: seq<World>, acts: seq<Action>, i: nat, key: string)
    requires i <= |acts| < |worlds|
  {
    forall m | 0 <= m < i :: !RemovalAt(worlds[m], acts[m], key)
  }

  /** A delivery of a request starts only when its earlier ones are over. */
  predicate Serial(w: World, act: Action) {
    act.Start? ==> forall id <- w.deliveries :: w.deliveries[id].requestId == act.requestId ==>
      w.deliveries[id].pc.Finished?
  }

  predicate SerialRun(worlds: seq<World>, acts: seq<Action>)
    requires |worlds| == |acts| + 1
  {
    forall i | 0 <= i < |acts| :: Serial(worlds[i], acts[i])
  }

  function SlotAt(w: World, id: nat): string
    requires id in w.deliveries
  {
    Slot(w.owner, w.deliveries[id].name)
  }

  // ---- What holds with any outsiders and removals ----

  predicate PastClaim(pc: Pc) {
    pc.Creating? || pc.Finding? || pc.Saving? || (pc.Finished? && pc.outcome.Success?)
  }

  predicate DeliveryOk(w: World, id: nat)
    requires id in w.deliveries
  {
    var d := w.deliveries[id];
    && (!d.pc.Finished? || PastClaim(d.pc) ==> Names.Valid(d.name))
    && (d.pc.Claiming? ==> d.pc.claim == Record(w.owner, d.name, d.requestId, d.template, Status.Claimed, d.now, None))
    && (PastClaim(d.pc) ==> HeldBy(w.records, SlotAt(w, id), d.requestId))
  }

  predicate RecordOk(w: World, slot: string)
    requires slot in w.records
  {
    var record := w.records[slot];
    SlotOf(record) == slot && record.owner == w.owner && Names.Valid(record.name) && Consistent(record)
  }

  predicate Inv(w: World) {
    && (forall id <- w.deliveries :: DeliveryOk(w, id))
    && (forall slot <- w.records :: RecordOk(w, slot))
  }

  /** Whoever claimed a slot keeps it. */
  predicate OwnersKept(w: World, w': World) {
    w'.owner == w.owner
    && forall slot <- w.records :: slot in w'.records && w'.records[slot].requestId == w.records[slot].requestId
  }

  /** Neither write lets a slot change hands. */
  lemma WritesKeepOwners(records: Records, record: Record, fault: Fault)
    ensures forall slot <- records ::
      slot in PutClaim(records, record, fault)
        && PutClaim(records, record, fault)[slot].requestId == records[slot].requestId
    ensures forall slot <- records ::
      slot in PutCreated(records, record, fault)
        && PutCreated(records, record, fault)[slot].requestId == records[slot].requestId
  {
  }

  lemma StepKeepsOwners(w: World, act: Action)
    requires Enabled(w, act)
    ensures OwnersKept(w, Step(w, act))
  {
    match act
    case ClaimSlot(id, fault) => WritesKeepOwners(w.records, w.deliveries[id].pc.claim, fault);
    case Save(id, fault) =>
      if Promoted(w, id).Some? {
        WritesKeepOwners(w.records, Promoted(w, id).value, fault);
      }
    case _ =>
  }

  lemma OthersKeepOk(w: World, w': World, id: nat)
    requires Inv(w) && OwnersKept(w, w')
    requires id in w'.deliveries && w'.deliveries == w.deliveries[id := w'.deliveries[id]]
    requires DeliveryOk(w', id)
    requires forall slot <- w'.records :: RecordOk(w', slot)
    ensures Inv(w')
  {
    forall other <- w'.deliveries ensures DeliveryOk(w', other) {
      if other != id {
        assert DeliveryOk(w, other);
      }
    }
  }

  lemma RecordsStayOk(w: World, w': World, slot: string, record: Record)
    requires Inv(w) && w'.owner == w.owner
    requires w'.records == w.records || w'.records == w.records[slot := record]
    requires SlotOf(record) == slot && record.owner == w.owner && Names.Valid(record.name) && Consistent(record)
    ensures forall s <- w'.records :: RecordOk(w', s)
  {
    forall s <- w'.records ensures RecordOk(w', s) {
      if s in w.records {
        assert RecordOk(w, s);
      }
    }
  }

  lemma ClaimKeepsInv(w: World, id: nat, fault: Fault)
    requires Inv(w) && Enabled(w, ClaimSlot(id, fault))
    ensures Inv(Step(w, ClaimSlot(id, fault)))
  {
    var w' := Step(w, ClaimSlot(id, fault));
    assert DeliveryOk(w, id);
    StepKeepsOwners(w, ClaimSlot(id, fault));
    RecordsStayOk(w, w', SlotAt(w, id), w.deliveries[id].pc.claim);
    OthersKeepOk(w, w', id);
  }

  lemma SaveKeepsInv(w: World, id: nat, fault: Fault)
    requires Inv(w) && Enabled(w, Save(id, fault))
    ensures Inv(StepSave(w, id, fault))
  {
    var w' := StepSave(w, id, fault);
    assert DeliveryOk(w, id);
    StepKeepsOwners(w, Save(id, fault));
    match Promoted(w, id)
    case None => RecordsUntouched(w, w', id);
    case Some(record) =>
      RecordsStayOk(w, w', SlotAt(w, id), record);
      OthersKeepOk(w, w', id);
  }

  /** A delivery moved on and the inventory stayed as it was. */
  lemma RecordsUntouched(w: World, w': World, id: nat)
    requires Inv(w) && w'.owner == w.owner && w'.records == w.records
    requires id in w'.deliveries && w'.deliveries == w.deliveries[id := w'.deliveries[id]]
    requires DeliveryOk(w', id)
    ensures Inv(w')
  {
    forall slot <- w'.records ensures RecordOk(w', slot) {
      assert RecordOk(w, slot);
    }
    OthersKeepOk(w, w', id);
  }

  lemma StartKeepsInv(w: World, id: nat, requestId: string, rawName: string, template: string, now: int)
    requires Inv(w) && Enabled(w, Start(id, requestId, rawName, template, now))
    ensures Inv(Step(w, Start(id, requestId, rawName, template, now)))
  {
    RecordsUntouched(w, Step(w, Start(id, requestId, rawName, template, now)), id);
  }

  lemma CreateKeepsInv(w: World, id: nat, fault: Fault)
    requires Inv(w) && Enabled(w, Create(id, fault))
    ensures Inv(StepCreate(w, id, fault))
  {
    assert DeliveryOk(w, id);
    RecordsUntouched(w, StepCreate(w, id, fault), id);
  }

  lemma FindKeepsInv(w: World, id: nat, fault: Fault)
    requires Inv(w) && Enabled(w, Find(id, fault))
    ensures Inv(Step(w, Find(id, fault)))
  {
    assert DeliveryOk(w, id);
    RecordsUntouched(w, Step(w, Find(id, fault)), id);
  }

  lemma StepKeepsInv(w: World, act: Action)
    requires Inv(w) && Enabled(w, act)
    ensures Inv(Step(w, act))
  {
    match act
    case Start(id, requestId, rawName, template, now) => StartKeepsInv(w, id, requestId, rawName, template, now);
    case ClaimSlot(id, fault) => ClaimKeepsInv(w, id, fault);
    case Create(id, fault) => CreateKeepsInv(w, id, fault);
    case Find(id, fault) => FindKeepsInv(w, id, fault);
    case Save(id, fault) => SaveKeepsInv(w, id, fault);
    case Crash(id) => RecordsUntouched(w, End(w, id, Faulted), id);
    case CreateOutside(name) => SameDeliveriesKeepInv(w, MakeRepository(w, name, None));
    case Remove(_) => SameDeliveriesKeepInv(w, Step(w, act));
  }

  lemma SameDeliveriesKeepInv(w: World, w': World)
    requires Inv(w) && w'.owner == w.owner && w'.records == w.records && w'.deliveries == w.deliveries
    ensures Inv(w')
  {
    forall id <- w'.deliveries ensures DeliveryOk(w', id) {
      assert DeliveryOk(w, id);
    }
    forall slot <- w'.records ensures RecordOk(w', slot) {
      assert RecordOk(w, slot);
    }
  }
}
