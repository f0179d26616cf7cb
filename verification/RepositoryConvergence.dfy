/** Interrupting a request any number of times and then running it once more to the end is
    as good as having run it once. */
module RepositoryConvergence {
  import opened Common
  import opened RepositoryRecord
  import opened RecordStore
  import opened RepositoryProtocol
  import Names = ApplicationName

  datatype Command = Command(requestId: string, rawName: string, template: string)

  function NameOf(c: Command): string {
    Names.Trim(c.rawName)
  }

  /** A command the use case does not reject, for a host that knows the owner. */
  predicate Acceptable(w: World, c: Command) {
    && Names.Valid(NameOf(c)) && !Blank(w.owner) && !Blank(c.requestId) && !Blank(c.template)
    && Fold(w.host.login) == Fold(w.owner)
  }

  /** The slot and the name on the host are free. */
  predicate Vacant(w: World, c: Command) {
    Slot(w.owner, NameOf(c)) !in w.records && HostKey(w, NameOf(c)) !in w.repos
  }

  // ---- Interrupted deliveries ----

  /** The action belongs to a delivery of this command that started after `w`. */
  predicate OwnAction(w: World, c: Command, act: Action) {
    && !act.CreateOutside? && !act.Remove? && act.id !in w.deliveries
    && (act.Start? ==> act.requestId == c.requestId && act.rawName == c.rawName && act.template == c.template)
  }

  predicate OwnDelivery(w: World, now: World, c: Command, id: nat)
    requires id in now.deliveries
  {
    var d, slot := now.deliveries[id], Slot(w.owner, NameOf(c));
    && d.requestId == c.requestId && d.name == NameOf(c) && d.template == c.template
    && (d.pc.Claiming? ==> SlotOf(d.pc.claim) == slot && d.pc.claim.requestId == c.requestId)
    && (PastClaim(d.pc) ==> slot in now.records)
    && (d.pc.Saving? ==> HostKey(w, NameOf(c)) in now.repos && d.pc.repository == now.repos[HostKey(w, NameOf(c))])
  }

  /** Interrupted deliveries leave at most a claim on the slot and the one repository. */
  predicate Interrupted(w: World, now: World, c: Command) {
    var slot, key := Slot(w.owner, NameOf(c)), HostKey(w, NameOf(c));
    && now.owner == w.owner && now.host == w.host
    && (forall id <- now.deliveries | id !in w.deliveries :: OwnDelivery(w, now, c, id))
    && (now.records == w.records ||
        (HeldBy(now.records, slot, c.requestId) && now.records == w.records[slot := now.records[slot]]))
    && ((now.repos == w.repos && now.nextId == w.nextId) ||
        (slot in now.records && now.repos == w.repos[key := Mint(w, NameOf(c))] && now.nextId == w.nextId + 1))
  }

  lemma SlotOfPromoted(w: World, id: nat)
    requires id in w.deliveries && w.deliveries[id].pc.Saving? && Promoted(w, id).Some?
    ensures SlotOf(Promoted(w, id).value) == SlotAt(w, id)
    ensures Promoted(w, id).value.requestId == w.deliveries[id].requestId
  {
  }

  lemma OwnStepKeepsHost(w: World, now: World, c: Command, act: Action)
    requires Vacant(w, c) && Interrupted(w, now, c) && Enabled(now, act) && OwnAction(w, c, act)
    ensures var next := Step(now, act); var slot, key := Slot(w.owner, NameOf(c)), HostKey(w, NameOf(c));
      && next.owner == w.owner && next.host == w.host
      && (next.records == w.records ||
          (HeldBy(next.records, slot, c.requestId) && next.records == w.records[slot := next.records[slot]]))
      && (slot in now.records ==> slot in next.records)
  {
    if act.id in now.deliveries {
      assert OwnDelivery(w, now, c, act.id);
      if act.Save? && Promoted(now, act.id).Some? {
        SlotOfPromoted(now, act.id);
      }
    }
  }

  lemma OwnStepKeepsRepos(w: World, now: World, c: Command, act: Action)
    requires Vacant(w, c) && Interrupted(w, now, c) && Enabled(now, act) && OwnAction(w, c, act)
    ensures var next := Step(now, act); var slot, key := Slot(w.owner, NameOf(c)), HostKey(w, NameOf(c));
      && ((next.repos == w.repos && next.nextId == w.nextId) ||
          (slot in now.records && next.repos == w.repos[key := Mint(w, NameOf(c))] && next.nextId == w.nextId + 1))
      && (key in now.repos ==> key in next.repos && next.repos[key] == now.repos[key])
  {
    if act.id in now.deliveries {
      assert OwnDelivery(w, now, c, act.id);
    }
  }

  lemma OwnCreateKeepsDelivery(w: World, now: World, c: Command, id: nat, fault: Fault)
    requires Vacant(w, c) && Interrupted(w, now, c) && Enabled(now, Create(id, fault)) && id !in w.deliveries
    ensures id in StepCreate(now, id, fault).deliveries && OwnDelivery(w, StepCreate(now, id, fault), c, id)
  {
    assert OwnDelivery(w, now, c, id);
  }

  lemma OwnSaveKeepsDelivery(w: World, now: World, c: Command, id: nat, fault: Fault)
    requires Vacant(w, c) && Interrupted(w, now, c) && Enabled(now, Save(id, fault)) && id !in w.deliveries
    ensures id in StepSave(now, id, fault).deliveries && OwnDelivery(w, StepSave(now, id, fault), c, id)
  {
    assert OwnDelivery(w, now, c, id);
    OwnStepKeepsHost(w, now, c, Save(id, fault));
  }

  lemma OwnStepKeepsDelivery(w: World, now: World, c: Command, act: Action)
    requires Vacant(w, c) && Interrupted(w, now, c) && Enabled(now, act) && OwnAction(w, c, act)
    ensures act.id in Step(now, act).deliveries && OwnDelivery(w, Step(now, act), c, act.id)
  {
    assert act.id in now.deliveries ==> OwnDelivery(w, now, c, act.id);
    match act
    case Start(_, _, _, _, _) =>
    case ClaimSlot(_, _) =>
    case Create(id, fault) => OwnCreateKeepsDelivery(w, now, c, id, fault);
    case Find(_, _) =>
    case Save(id, fault) => OwnSaveKeepsDelivery(w, now, c, id, fault);
    case Crash(_) =>
  }

  lemma OwnStepKeepsInterrupted(w: World, now: World, c: Command, act: Action)
    requires Vacant(w, c) && Interrupted(w, now, c) && Enabled(now, act) && OwnAction(w, c, act)
    ensures Interrupted(w, Step(now, act), c)
  {
    var next := Step(now, act);
    OwnStepKeepsHost(w, now, c, act);
    OwnStepKeepsRepos(w, now, c, act);
    OwnStepKeepsDelivery(w, now, c, act);
    OnlyOneMoves(now, act);
    forall id <- next.deliveries | id !in w.deliveries ensures OwnDelivery(w, next, c, id) {
      if id != act.id {
        assert OwnDelivery(w, now, c, id);
      }
    }
  }

  lemma OnlyOneMoves(w: World, act: Action)
    requires Enabled(w, act) && !act.Remove? && !act.CreateOutside?
    ensures forall id <- Step(w, act).deliveries | id != act.id ::
      id in w.deliveries && Step(w, act).deliveries[id] == w.deliveries[id]
  {
  }

  lemma {:induction false} OwnPlayKeepsInterrupted(w: World, now: World, c: Command, acts: seq<Action>)
    requires Vacant(w, c) && Interrupted(w, now, c) && Plays(now, acts)
    requires forall act <- acts :: OwnAction(w, c, act)
    ensures Interrupted(w, Play(now, acts), c)
    decreases acts
  {
    if acts != [] {
      assert acts[0] in acts && forall act <- acts[1..] :: act in acts;
      OwnStepKeepsInterrupted(w, now, c, acts[0]);
      OwnPlayKeepsInterrupted(w, Step(now, acts[0]), c, acts[1..]);
    }
  }

  // ---- The fault-free run ----

  /** One delivery from start to end with no fault. */
  function CleanRun(id: nat, c: Command, now: int, existed: bool): seq<Action> {
    [Start(id, c.requestId, c.rawName, c.template, now)]
    + ([ClaimSlot(id, Clean)] + ([Create(id, Clean)]
                                 + ((if existed then [Find(id, Clean)] else []) + [Save(id, Clean)])))
  }

  /** The same repository, but for the number the host gave it. */
  predicate SameRepository(a: Hosted, b: Hosted) {
    a == b.(id := a.id)
  }

  /** The slot is free or the request's, and a repository under the name is one the request made. */
  predicate Ready(w: World, c: Command) {
    var slot, key := Slot(w.owner, NameOf(c)), HostKey(w, NameOf(c));
    && (slot in w.records ==> HeldBy(w.records, slot, c.requestId))
    && (key in w.repos ==> slot in w.records && SameRepository(w.repos[key], Mint(w, NameOf(c))))
  }

  /** The repository a fault-free run ends with: the one that is there, or a new one. */
  function Result(w: World, c: Command): Hosted {
    var key := HostKey(w, NameOf(c));
    if key in w.repos then w.repos[key] else Mint(w, NameOf(c))
  }

  function FinalRecord(w: World, c: Command, time: int): Record {
    Record(w.owner, NameOf(c), c.requestId, c.template, Created, time, Some(Result(w, c)))
  }

  lemma SameNameAsHosted(w: World, c: Command)
    requires Fold(w.host.login) == Fold(w.owner)
    ensures Fold(FullName(w.host.login, NameOf(c))) == Fold(FullName(w.owner, NameOf(c)))
  {
    FoldConcat(w.host.login, "/" + NameOf(c));
    FoldConcat(w.owner, "/" + NameOf(c));
    assert FullName(w.host.login, NameOf(c)) == w.host.login + ("/" + NameOf(c));
    assert FullName(w.owner, NameOf(c)) == w.owner + ("/" + NameOf(c));
  }

  /** What a run from w leaves behind: the slot's record, the host's repository, the delivery's
      report; and nothing else. */
  predicate Converged(w: World, end: World, id: nat, c: Command, time: int) {
    var slot, key := Slot(w.owner, NameOf(c)), HostKey(w, NameOf(c));
    && end.records == w.records[slot := FinalRecord(w, c, time)]
    && end.repos == w.repos[key := Result(w, c)] && end.nextId == w.nextId + (if key in w.repos then 0 else 1)
    && end.owner == w.owner && end.host == w.host
    && id in end.deliveries && end.deliveries == w.deliveries[id := end.deliveries[id]]
    && end.deliveries[id].pc == Finished(Success(Result(w, c), key in w.repos))
  }

  /** The last step: saving the repository the delivery holds. */
  lemma SaveConverges(w: World, mid: World, id: nat, c: Command, time: int)
    requires Acceptable(w, c) && Ready(w, c) && mid.owner == w.owner && mid.host == w.host
    requires id in mid.deliveries && mid.deliveries == w.deliveries[id := mid.deliveries[id]]
    requires mid.deliveries[id].pc == Saving(Result(w, c), HostKey(w, NameOf(c)) in w.repos)
    requires var d := mid.deliveries[id];
      d.requestId == c.requestId && d.name == NameOf(c) && d.template == c.template && d.now == time
    requires var slot := Slot(w.owner, NameOf(c));
      HeldBy(mid.records, slot, c.requestId) && mid.records == w.records[slot := mid.records[slot]]
    requires var key := HostKey(w, NameOf(c));
      mid.repos == w.repos[key := Result(w, c)] && mid.nextId == w.nextId + if key in w.repos then 0 else 1
    ensures Plays(mid, [Save(id, Clean)]) && Converged(w, Play(mid, [Save(id, Clean)]), id, c, time)
  {
    SameNameAsHosted(w, c);
    assert Promoted(mid, id) == Some(FinalRecord(w, c, time));
    PlayOne(mid, Save(id, Clean));
  }

  /** Claiming: the slot is the request's, first or again. */
  lemma ClaimAgain(w: World, id: nat, c: Command, time: int) returns (mid: World)
    requires Acceptable(w, c) && Ready(w, c) && id !in w.deliveries
    ensures var start := Start(id, c.requestId, c.rawName, c.template, time);
      Enabled(w, start) && Enabled(Step(w, start), ClaimSlot(id, Clean))
        && mid == Step(Step(w, start), ClaimSlot(id, Clean))
    ensures HasClaimed(w, mid, id, c, time)
  {
    var started := Step(w, Start(id, c.requestId, c.rawName, c.template, time));
    var claim := Record(w.owner, NameOf(c), c.requestId, c.template, Status.Claimed, time, None);
    assert started.deliveries[id].pc == Claiming(claim);
    mid := Step(started, ClaimSlot(id, Clean));
  }

  /** The delivery has claimed the slot and nothing else has changed. */
  predicate HasClaimed(w: World, mid: World, id: nat, c: Command, time: int) {
    var slot := Slot(w.owner, NameOf(c));
    && mid.owner == w.owner && mid.host == w.host && mid.repos == w.repos && mid.nextId == w.nextId
    && HeldBy(mid.records, slot, c.requestId) && mid.records == w.records[slot := mid.records[slot]]
    && mid.deliveries == w.deliveries[id := Delivery(c.requestId, NameOf(c), c.template, time,
                                                     Creating(slot !in w.records), None)]
  }

  /** The repository was made before: it is found. */
  lemma FindConverges(w: World, mid: World, id: nat, c: Command, time: int)
    requires Acceptable(w, c) && Ready(w, c) && HasClaimed(w, mid, id, c, time) && HostKey(w, NameOf(c)) in w.repos
    ensures var rest := [Create(id, Clean)] + ([Find(id, Clean)] + [Save(id, Clean)]);
      Plays(mid, rest) && Converged(w, Play(mid, rest), id, c, time)
  {
    var created := Step(mid, Create(id, Clean));
    assert created.deliveries[id].pc == Finding;
    var found := Step(created, Find(id, Clean));
    SaveConverges(w, found, id, c, time);
    PlayCons(created, Find(id, Clean), [Save(id, Clean)]);
    PlayCons(mid, Create(id, Clean), [Find(id, Clean)] + [Save(id, Clean)]);
  }

  /** It was not: it is made now. */
  lemma MakeConverges(w: World, mid: World, id: nat, c: Command, time: int)
    requires Acceptable(w, c) && Ready(w, c) && HasClaimed(w, mid, id, c, time) && HostKey(w, NameOf(c)) !in w.repos
    ensures var rest := [Create(id, Clean)] + ([] + [Save(id, Clean)]);
      Plays(mid, rest) && Converged(w, Play(mid, rest), id, c, time)
  {
    var created := Step(mid, Create(id, Clean));
    SaveConverges(w, created, id, c, time);
    assert [] + [Save(id, Clean)] == [Save(id, Clean)];
    PlayCons(mid, Create(id, Clean), [Save(id, Clean)]);
  }

  /** From any world that is ready for the command, one fault-free delivery converges. */
  lemma CleanRunConverges(w: World, id: nat, c: Command, time: int)
    requires Acceptable(w, c) && Ready(w, c) && id !in w.deliveries
    ensures var existed := HostKey(w, NameOf(c)) in w.repos;
      Plays(w, CleanRun(id, c, time, existed)) && Converged(w, Play(w, CleanRun(id, c, time, existed)), id, c, time)
  {
    var mid := ClaimAgain(w, id, c, time);
    var existed := HostKey(w, NameOf(c)) in w.repos;
    if existed {
      FindConverges(w, mid, id, c, time);
    } else {
      MakeConverges(w, mid, id, c, time);
    }
    var rest := [Create(id, Clean)] + ((if existed then [Find(id, Clean)] else []) + [Save(id, Clean)]);
    var start := Start(id, c.requestId, c.rawName, c.template, time);
    PlayCons(Step(w, start), ClaimSlot(id, Clean), rest);
    PlayCons(w, start, [ClaimSlot(id, Clean)] + rest);
  }

  // ---- Crash convergence ----

  /** Two worlds in which the command succeeded, the same but for the time of the claim and
      for whether the repository was there already. */
  predicate SameSuccess(w: World, c: Command, end: World, alone: World, id: nat, time: int, existed: bool) {
    var slot, key := Slot(w.owner, NameOf(c)), HostKey(w, NameOf(c));
    && slot in end.records && slot in alone.records && key in end.repos && id in end.deliveries
      && id in alone.deliveries
    && end.records[slot].status.Created? && end.records[slot].hosted == Some(end.repos[key])
    && end.records == alone.records[slot := alone.records[slot].(createdAt := time)]
    && end.repos == alone.repos && end.nextId == alone.nextId
    && end.deliveries[id].pc == Finished(Success(end.repos[key], existed))
    && alone.deliveries[id].pc == Finished(Success(end.repos[key], false))
  }

  lemma InterruptedIsReady(w: World, now: World, c: Command)
    requires Vacant(w, c) && Interrupted(w, now, c)
    ensures Ready(now, c) && Result(now, c) == Mint(w, NameOf(c))
  {
  }

  lemma ConvergedIsSame(w: World, now: World, c: Command, end: World, alone: World, id: nat, time: int, aloneTime: int)
    requires Vacant(w, c) && Interrupted(w, now, c) && Result(now, c) == Mint(w, NameOf(c))
    requires Converged(now, end, id, c, time) && Converged(w, alone, id, c, aloneTime)
    ensures SameSuccess(w, c, end, alone, id, time, HostKey(w, NameOf(c)) in now.repos)
  {
    var slot := Slot(w.owner, NameOf(c));
    assert alone.records[slot].(createdAt := time) == FinalRecord(now, c, time);
  }

  /** Crash convergence. From a vacant slot and name, let any deliveries of one command run
      and be interrupted at any of their calls, each call having taken effect or not. One more
      delivery without faults then ends in success, and leaves the inventory and the host
      exactly as one fault-free delivery alone would, but for the time of the claim and for
      reporting whether the repository was there already. */
  lemma CrashConvergence(w: World, c: Command, acts: seq<Action>, id: nat, time: int, aloneTime: int)
    requires Acceptable(w, c) && Vacant(w, c) && Plays(w, acts) && (forall act <- acts :: OwnAction(w, c, act))
    requires id !in w.deliveries && id !in Play(w, acts).deliveries
    ensures var before := Play(w, acts);
      var existed := HostKey(w, NameOf(c)) in before.repos;
      && Plays(before, CleanRun(id, c, time, existed)) && Plays(w, CleanRun(id, c, aloneTime, false))
      && SameSuccess(w, c, Play(before, CleanRun(id, c, time, existed)), Play(w, CleanRun(id, c, aloneTime, false)), id,
                     time, existed)
  {
    OwnPlayKeepsInterrupted(w, w, c, acts);
    var before := Play(w, acts);
    var existed := HostKey(w, NameOf(c)) in before.repos;
    InterruptedIsReady(w, before, c);
    CleanRunConverges(before, id, c, time);
    CleanRunConverges(w, id, c, aloneTime);
    ConvergedIsSame(w, before, c, Play(before, CleanRun(id, c, time, existed)),
                    Play(w, CleanRun(id, c, aloneTime, false)), id, time, aloneTime);
  }
}
