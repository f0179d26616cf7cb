/** The use case as it is written: claim, create or adopt, save, each await in its order. One
    execution is one delivery of the protocol running alone. */
module CreateRepositoryUseCase {
  import opened Common
  import opened RepositoryRecord
  import opened RecordStore
  import opened RepositoryProtocol
  import Names = ApplicationName

  /** What each call of one execution runs into. */
  datatype Faults = Faults(claim: Fault, create: Fault, find: Fault, save: Fault)

  datatype Reply<T> = Reply(value: T) | AlreadyExists | Broken

  class RepositoryHost {
    const owner: string
    const host: Host
    var repos: map<string, Hosted>
    var nextId: nat

    constructor (owner: string, host: Host)
      ensures this.owner == owner && this.host == host && repos == map[] && nextId == 0
    {
      this.owner, this.host := owner, host;
      repos, nextId := map[], 0;
    }

    /** The host together with an inventory and no delivery under way. */
    ghost function Around(records: Records): World
      reads this
    {
      World(owner, host, records, repos, nextId, map[], map[])
    }

    method CreateAsync(name: string, fault: Fault) returns (reply: Reply<Hosted>)
      modifies this
      ensures var w := old(Around(map[])); var key := HostKey(w, name);
        && (if TakesEffect(fault) && key !in old(repos)
            then repos == old(repos)[key := Mint(w, name)] && nextId == old(nextId) + 1
            else repos == old(repos) && nextId == old(nextId))
        && reply == if !fault.Clean? then Broken else if key in old(repos) then AlreadyExists else Reply(Mint(w, name))
    {
      var key := Fold(FullName(owner, name));
      var url := host.site + FullName(host.login, name);
      var repository := Hosted(nextId, host.login, name, url, url + ".git", host.branch);
      var taken := key in repos;
      if TakesEffect(fault) && !taken {
        repos := repos[key := repository];
        nextId := nextId + 1;
      }
      if !fault.Clean? {
        return Broken;
      }
      return if taken then AlreadyExists else Reply(repository);
    }

    method FindAsync(name: string, fault: Fault) returns (reply: Reply<Option<Hosted>>)
      ensures var key := Fold(FullName(owner, name));
        reply == if !fault.Clean? then Broken else Reply(if key in repos then Some(repos[key]) else None)
    {
      var key := Fold(FullName(owner, name));
      if !fault.Clean? {
        return Broken;
      }
      return Reply(if key in repos then Some(repos[key]) else None);
    }
  }

  /** What is left for a delivery that stands where it does. */
  function Ahead(pc: Pc): nat {
    match pc
    case Claiming(_) => 4
    case Creating(_) => 3
    case Finding => 2
    case Saving(_, _) => 1
    case Finished(_) => 0
  }

  function NextOf(pc: Pc, id: nat, faults: Faults): Action
    requires !pc.Finished?
  {
    match pc
    case Claiming(_) => ClaimSlot(id, faults.claim)
    case Creating(_) => Create(id, faults.create)
    case Finding => Find(id, faults.find)
    case Saving(_, _) => Save(id, faults.save)
  }

  /** A delivery running alone from where it stands to its end. */
  ghost function Drive(w: World, id: nat, faults: Faults): (end: World)
    requires id in w.deliveries
    ensures id in end.deliveries && end.deliveries[id].pc.Finished?
    decreases Ahead(w.deliveries[id].pc)
  {
    var pc := w.deliveries[id].pc;
    if pc.Finished? then w else Drive(Step(w, NextOf(pc, id, faults)), id, faults)
  }

  /** Running alone is playing a sequence of the protocol's actions. */
  lemma {:induction false} DriveIsPlay(w: World, id: nat, faults: Faults) returns (acts: seq<Action>)
    requires id in w.deliveries
    ensures Plays(w, acts) && Play(w, acts) == Drive(w, id, faults)
    decreases Ahead(w.deliveries[id].pc)
  {
    var pc := w.deliveries[id].pc;
    if pc.Finished? {
      acts := [];
    } else {
      var act := NextOf(pc, id, faults);
      var rest := DriveIsPlay(Step(w, act), id, faults);
      PlayCons(w, act, rest);
      acts := [act] + rest;
    }
  }

  /** So a delivery that runs alone at the end of a run makes it a longer run, and every theorem
      about runs covers it. */
  lemma DriveExtendsRun(worlds: seq<World>, acts: seq<Action>, id: nat, faults: Faults)
    returns (longer: seq<World>, more: seq<Action>)
    requires IsRun(worlds, acts) && id in worlds[|acts|].deliveries
    ensures IsRun(longer, acts + more) && worlds <= longer && longer[|acts + more|] == Drive(worlds[|acts|], id, faults)
  {
    more := DriveIsPlay(worlds[|acts|], id, faults);
    longer := PlayExtendsRun(worlds, acts, more);
  }

  /** Where a lone delivery stands. */
  predicate Stands(w: World, claim: Record, pc: Pc) {
    && w.owner == claim.owner && claim.status.Claimed? && claim.hosted.None?
    && w.deliveries.Keys == {0} && w.deliveries[0].pc == pc
    && w.deliveries[0].(pc := Finding, source := None) ==
         Delivery(claim.requestId, claim.name, claim.template, claim.createdAt, Finding, None)
  }

  lemma DriveStops(w: World, faults: Faults)
    requires 0 in w.deliveries && w.deliveries[0].pc.Finished?
    ensures Drive(w, 0, faults) == w
  {
  }

  lemma StartAlone(w: World, requestId: string, rawName: string, template: string, now: int, faults: Faults)
    returns (started: World)
    requires w.deliveries == map[]
    ensures started == Step(w, Start(0, requestId, rawName, template, now))
    ensures started.records == w.records && started.repos == w.repos && started.nextId == w.nextId
      && started.host == w.host
    ensures var name := Names.Trim(rawName);
      if !Names.Valid(name) then
        Drive(started, 0, faults) == started && started.deliveries[0].pc == Finished(InvalidName)
      else match Claim(w.owner, name, requestId, template, now)
        case None => Drive(started, 0, faults) == started && started.deliveries[0].pc == Finished(Faulted)
        case Some(claim) => Stands(started, claim, Claiming(claim))
  {
    started := Step(w, Start(0, requestId, rawName, template, now));
    if started.deliveries[0].pc.Finished? {
      DriveStops(started, faults);
    }
  }

  lemma ClaimAlone(w: World, claim: Record, faults: Faults) returns (w': World)
    requires Stands(w, claim, Claiming(claim))
    ensures w'.host == w.host && w'.repos == w.repos && w'.nextId == w.nextId
      && w'.records == PutClaim(w.records, claim, faults.claim)
    ensures Stands(w', claim,
      if !faults.claim.Clean? then Finished(Faulted)
      else if SlotOf(claim) !in w.records then Creating(true)
      else if HeldBy(w.records, SlotOf(claim), claim.requestId) then Creating(false)
      else Finished(Conflict))
    ensures Drive(w, 0, faults) == Drive(w', 0, faults)
    ensures w'.deliveries[0].pc.Finished? ==> Drive(w', 0, faults) == w'
  {
    w' := Step(w, ClaimSlot(0, faults.claim));
  }

  lemma CreateAlone(w: World, claim: Record, first: bool, faults: Faults) returns (w': World)
    requires Stands(w, claim, Creating(first))
    ensures var key := HostKey(w, claim.name);
      && w'.host == w.host && w'.records == w.records
      && (if TakesEffect(faults.create) && key !in w.repos
          then w'.repos == w.repos[key := Mint(w, claim.name)] && w'.nextId == w.nextId + 1
          else w'.repos == w.repos && w'.nextId == w.nextId)
      && Stands(w', claim,
           if !faults.create.Clean? then Finished(Faulted)
           else if key !in w.repos then Saving(Mint(w, claim.name), false)
           else if first then Finished(Conflict) else Finding)
    ensures Drive(w, 0, faults) == Drive(w', 0, faults)
    ensures w'.deliveries[0].pc.Finished? ==> Drive(w', 0, faults) == w'
  {
    w' := Step(w, Create(0, faults.create));
  }

  lemma FindAlone(w: World, claim: Record, faults: Faults) returns (w': World)
    requires Stands(w, claim, Finding)
    ensures var key := HostKey(w, claim.name);
      && w'.host == w.host && w'.records == w.records && w'.repos == w.repos && w'.nextId == w.nextId
      && Stands(w', claim,
           if !faults.find.Clean? then Finished(Faulted)
           else if key in w.repos then Saving(w.repos[key], true) else Finished(Conflict))
    ensures Drive(w, 0, faults) == Drive(w', 0, faults)
    ensures w'.deliveries[0].pc.Finished? ==> Drive(w', 0, faults) == w'
  {
    w' := Step(w, Find(0, faults.find));
  }

  lemma SaveAlone(w: World, claim: Record, repository: Hosted, alreadyExisted: bool, faults: Faults) returns (w': World)
    requires Stands(w, claim, Saving(repository, alreadyExisted))
    ensures var promoted := MarkCreated(claim, repository);
      && w'.repos == w.repos && w'.nextId == w.nextId
      && w'.records == (if promoted.Some? then PutCreated(w.records, promoted.value, faults.save) else w.records)
      && Stands(w', claim, Finished(
           if promoted.None? || !faults.save.Clean? then Faulted
           else if HeldBy(w.records, SlotOf(claim), claim.requestId) then Success(repository, alreadyExisted)
           else Conflict))
    ensures Drive(w, 0, faults) == Drive(w', 0, faults) == w'
  {
    w' := Step(w, Save(0, faults.save));
    assert Promoted(w, 0) == MarkCreated(claim, repository);
  }

  // ---- What an execution without faults comes to ----

  /** The repository an execution ends with: the one that is there, or a new one as the host
      reports it. */
  function Wanted(w: World, name: string): Hosted {
    var key := Fold(w.owner + "/" + name);
    if key in w.repos then w.repos[key]
    else
      var url := w.host.site + w.host.login + "/" + name;
      Hosted(w.nextId, w.host.login, name, url, url + ".git", w.host.branch)
  }

  /** A slot held by another request is a conflict and stays as it is. Otherwise the slot is
      claimed; a repository found under a slot that was free is a conflict, and in every other case
      the request ends with its repository, made or adopted, and the record marked created. */
  predicate ComesFor(w: World, slot: string, key: string, repository: Hosted, claim: Record,
                     records': Records, repos': map<string, Hosted>, outcome: Outcome) {
    if slot in w.records && w.records[slot].requestId != claim.requestId then
      outcome == Conflict && records' == w.records && repos' == w.repos
    else if slot !in w.records && key in w.repos then
      outcome == Conflict && records' == w.records[slot := claim] && repos' == w.repos
    else
      && repos' == w.repos[key := repository]
      && if Fold(FullName(repository.owner, repository.name)) == key then
           && outcome == Success(repository, key in w.repos)
           && records' == w.records[slot := claim.(status := Created, hosted := Some(repository))]
         else outcome == Faulted && records' == w.records[slot := claim]
  }

  /** A name that is not valid, and a blank argument, change nothing. */
  predicate Comes(w: World, requestId: string, rawName: string, template: string, now: int,
                  records': Records, repos': map<string, Hosted>, outcome: Outcome) {
    var name := Names.Trim(rawName);
    if !Names.Valid(name) then outcome == InvalidName && records' == w.records && repos' == w.repos
    else if Blank(w.owner) || Blank(requestId) || Blank(template) then
      outcome == Faulted && records' == w.records && repos' == w.repos
    else
      ComesFor(w, "REPO#" + w.owner + "/" + name, Fold(w.owner + "/" + name), Wanted(w, name),
               Record(w.owner, name, requestId, template, Claimed, now, None), records', repos', outcome)
  }

  predicate NoFault(faults: Faults) {
    faults.claim.Clean? && faults.create.Clean? && faults.find.Clean? && faults.save.Clean?
  }

  lemma WantedIsMinted(w: World, name: string)
    ensures HostKey(w, name) == Fold(w.owner + "/" + name) && Slot(w.owner, name) == "REPO#" + w.owner + "/" + name
    ensures HostKey(w, name) !in w.repos ==> Wanted(w, name) == Mint(w, name)
  {
    assert "REPO#" + (w.owner + "/" + name) == "REPO#" + w.owner + "/" + name;
    assert w.owner + ("/" + name) == w.owner + "/" + name;
    assert w.host.site + (w.host.login + "/" + name) == w.host.site + w.host.login + "/" + name;
  }

  /** From the save on. */
  lemma SaveComes(w: World, start: World, claim: Record, repository: Hosted, existed: bool, faults: Faults)
    requires Stands(w, claim, Saving(repository, existed)) && faults.save.Clean?
    requires HeldBy(w.records, SlotOf(claim), claim.requestId)
    ensures var end := Drive(w, 0, faults); 0 in end.deliveries && end.repos == w.repos
    ensures var end := Drive(w, 0, faults);
      if SameName(repository, claim) then
        && end.deliveries[0].pc == Finished(Success(repository, existed))
        && end.records == w.records[SlotOf(claim) := claim.(status := Created, hosted := Some(repository))]
      else end.deliveries[0].pc == Finished(Faulted) && end.records == w.records
  {
    var end := SaveAlone(w, claim, repository, existed, faults);
  }

  /** From the create on, with the slot claimed. */
  lemma CreateComes(w: World, claim: Record, first: bool, faults: Faults)
    requires Stands(w, claim, Creating(first)) && NoFault(faults)
    requires HeldBy(w.records, SlotOf(claim), claim.requestId)
    ensures 0 in Drive(w, 0, faults).deliveries
    ensures var end, key := Drive(w, 0, faults), HostKey(w, claim.name);
      var repository := if key in w.repos then w.repos[key] else Mint(w, claim.name);
      if first && key in w.repos then
        end.deliveries[0].pc == Finished(Conflict) && end.records == w.records && end.repos == w.repos
      else
        && end.repos == w.repos[key := repository]
        && if SameName(repository, claim) then
             && end.deliveries[0].pc == Finished(Success(repository, key in w.repos))
             && end.records == w.records[SlotOf(claim) := claim.(status := Created, hosted := Some(repository))]
           else end.deliveries[0].pc == Finished(Faulted) && end.records == w.records
  {
    var made := CreateAlone(w, claim, first, faults);
    if HostKey(w, claim.name) !in w.repos {
      SaveComes(made, w, claim, Mint(w, claim.name), false, faults);
    } else if !first {
      var found := FindAlone(made, claim, faults);
      SaveComes(found, w, claim, w.repos[HostKey(w, claim.name)], true, faults);
    }
  }

  lemma ClaimComes(w: World, claim: Record, faults: Faults)
    requires Stands(w, claim, Claiming(claim)) && NoFault(faults)
    ensures var end, key := Drive(w, 0, faults), HostKey(w, claim.name);
      var repository := if key in w.repos then w.repos[key] else Mint(w, claim.name);
      && 0 in end.deliveries && end.deliveries[0].pc.Finished?
      && ComesFor(w, SlotOf(claim), key, repository, claim, end.records, end.repos, end.deliveries[0].pc.outcome)
  {
    var claimed := ClaimAlone(w, claim, faults);
    if !claimed.deliveries[0].pc.Finished? {
      CreateComes(claimed, claim, SlotOf(claim) !in w.records, faults);
    }
  }

  lemma CleanDriveComes(w: World, requestId: string, rawName: string, template: string, now: int, faults: Faults)
    requires w.deliveries == map[] && NoFault(faults)
    ensures var end := Drive(Step(w, Start(0, requestId, rawName, template, now)), 0, faults);
      && 0 in end.deliveries && end.deliveries[0].pc.Finished?
      && Comes(w, requestId, rawName, template, now, end.records, end.repos, end.deliveries[0].pc.outcome)
  {
    var name := Names.Trim(rawName);
    var started := StartAlone(w, requestId, rawName, template, now, faults);
    if Names.Valid(name) {
      match Claim(w.owner, name, requestId, template, now)
      case None =>
      case Some(claim) =>
        ClaimComes(started, claim, faults);
        WantedIsMinted(w, name);
        assert HostKey(started, name) == HostKey(w, name) && Mint(started, name) == Mint(w, name);
    }
  }

  class UseCase {
    const records: DynamoDbRepositoryRecordStore
    const host: RepositoryHost
    const owner: string

    constructor (records: DynamoDbRepositoryRecordStore, host: RepositoryHost)
      ensures this.records == records && this.host == host && this.owner == host.owner
    {
      this.records, this.host, this.owner := records, host, host.owner;
    }

    /** The inventory and the host are as in the given world. */
    ghost predicate Mirrors(w: World)
      reads this, records, host
    {
      records.Valid() && owner == host.owner == w.owner && w.host == host.host
      && w.records == records.records && w.repos == host.repos && w.nextId == host.nextId
    }

    /** The world ends as the objects do, its delivery with the outcome. */
    ghost predicate Reports(end: World, outcome: Outcome)
      reads this, records, host
    {
      records.Valid() && end.records == records.records && end.repos == host.repos && end.nextId == host.nextId
      && 0 in end.deliveries && end.deliveries[0].pc == Finished(outcome)
    }

    /** One execution is one delivery running alone. */
    method ExecuteAsync(requestId: string, rawName: string, template: string, now: int, faults: Faults)
      returns (outcome: Outcome)
      requires records.Valid() && owner == host.owner
      modifies records, host
      ensures var started := Step(old(host.Around(records.records)), Start(0, requestId, rawName, template, now));
        Reports(Drive(started, 0, faults), outcome)
      ensures NoFault(faults) ==>
        Comes(old(host.Around(records.records)), requestId, rawName, template, now, records.records, host.repos,
              outcome)
    {
      if NoFault(faults) {
        CleanDriveComes(host.Around(records.records), requestId, rawName, template, now, faults);
      }
      ghost var w := StartAlone(host.Around(records.records), requestId, rawName, template, now, faults);
      var name := Names.Trim(rawName);
      if !Names.Valid(name) {
        return InvalidName;
      }
      var claimed := Claim(owner, name, requestId, template, now);
      if claimed.None? {
        return Faulted;
      }
      var claim := claimed.value;
      ghost var w' := ClaimAlone(w, claim, faults);
      var outcomeOfClaim := records.ClaimAsync(claim, faults.claim);
      match outcomeOfClaim {
        case ClaimFault => outcome := Faulted;
        case ClaimConflict => outcome := Conflict;
        case _ => outcome := CreateOrAdopt(w', claim, outcomeOfClaim.ClaimCreated?, faults);
      }
    }

    method CreateOrAdopt(ghost w: World, claim: Record, first: bool, faults: Faults) returns (outcome: Outcome)
      requires Mirrors(w) && Stands(w, claim, Creating(first))
      modifies records, host
      ensures Reports(Drive(w, 0, faults), outcome)
    {
      ghost var w' := CreateAlone(w, claim, first, faults);
      var created := host.CreateAsync(claim.name, faults.create);
      match created {
        case Broken => outcome := Faulted;
        case Reply(repository) => outcome := Finish(w', claim, repository, false, faults);
        case AlreadyExists =>
          if first {
            outcome := Conflict;
          } else {
            outcome := Adopt(w', claim, faults);
          }
      }
    }

    method Adopt(ghost w: World, claim: Record, faults: Faults) returns (outcome: Outcome)
      requires Mirrors(w) && Stands(w, claim, Finding)
      modifies records
      ensures Reports(Drive(w, 0, faults), outcome)
    {
      ghost var w' := FindAlone(w, claim, faults);
      var found := host.FindAsync(claim.name, faults.find);
      match found {
        case Broken => outcome := Faulted;
        case Reply(existing) =>
          if existing.None? {
            outcome := Conflict;
          } else {
            outcome := Finish(w', claim, existing.value, true, faults);
          }
      }
    }

    method Finish(ghost w: World, claim: Record, repository: Hosted, alreadyExisted: bool, faults: Faults)
      returns (outcome: Outcome)
      requires Mirrors(w) && Stands(w, claim, Saving(repository, alreadyExisted))
      modifies records
      ensures Reports(Drive(w, 0, faults), outcome)
    {
      ghost var w' := SaveAlone(w, claim, repository, alreadyExisted, faults);
      var promoted := MarkCreated(claim, repository);
      if promoted.None? {
        return Faulted;
      }
      var saved := records.SaveCreatedAsync(promoted.value, faults.save);
      match saved {
        case Saved => outcome := Success(repository, alreadyExisted);
        case SaveConflict => outcome := Conflict;
        case _ => outcome := Faulted;
      }
    }
  }
}
