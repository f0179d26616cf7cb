/** The two situations the guarantees exclude, each reached by a run for any acceptable command. */
module RepositoryLimits {
  import opened Common
  import opened RepositoryRecord
  import opened RecordStore
  import opened RepositoryProtocol
  import opened RepositoryConvergence

  function StartOf(id: nat, c: Command): Action {
    Start(id, c.requestId, c.rawName, c.template, 0)
  }

  function Joined(id: nat, c: Command, pc: Pc): Delivery {
    Delivery(c.requestId, NameOf(c), c.template, 0, pc, None)
  }

  /** A delivery starts and claims the slot, its own or free. */
  lemma StartAndClaim(w: World, id: nat, c: Command) returns (w': World)
    requires Acceptable(w, c) && id !in w.deliveries
    requires Slot(w.owner, NameOf(c)) in w.records ==> HeldBy(w.records, Slot(w.owner, NameOf(c)), c.requestId)
    ensures Plays(w, [StartOf(id, c)] + [ClaimSlot(id, Clean)])
      && w' == Play(w, [StartOf(id, c)] + [ClaimSlot(id, Clean)])
    ensures w'.repos == w.repos && w'.creator == w.creator && w'.owner == w.owner && w'.host == w.host
      && w'.nextId == w.nextId
    ensures w'.deliveries == w.deliveries[id := Joined(id, c, Creating(Slot(w.owner, NameOf(c)) !in w.records))]
    ensures HeldBy(w'.records, Slot(w.owner, NameOf(c)), c.requestId)
    ensures w'.records[Slot(w.owner, NameOf(c))].status.Claimed? && w'.records[Slot(w.owner, NameOf(c))].hosted.None?
  {
    var started := Step(w, StartOf(id, c));
    assert started.deliveries[id].pc.Claiming?;
    w' := Step(started, ClaimSlot(id, Clean));
    PlayCons(started, ClaimSlot(id, Clean), []);
    assert [ClaimSlot(id, Clean)] + [] == [ClaimSlot(id, Clean)];
    PlayCons(w, StartOf(id, c), [ClaimSlot(id, Clean)]);
  }

  lemma HarmlessConcat(a: seq<Action>, b: seq<Action>)
    requires NoOutsiders(a) && NoRemovals(a) && NoOutsiders(b) && NoRemovals(b)
    ensures NoOutsiders(a + b) && NoRemovals(a + b)
  {
  }

  lemma TwoClaims(w: World, c: Command) returns (w': World, acts: seq<Action>)
    requires Init(w) && Acceptable(w, c)
    ensures acts == [StartOf(1, c)] + [ClaimSlot(1, Clean)] + ([StartOf(2, c)] + [ClaimSlot(2, Clean)])
    ensures Plays(w, acts) && w' == Play(w, acts) && NoOutsiders(acts) && NoRemovals(acts)
    ensures w'.owner == w.owner && w'.repos == map[] && HeldBy(w'.records, Slot(w.owner, NameOf(c)), c.requestId)
    ensures w'.deliveries == map[1 := Joined(1, c, Creating(true)), 2 := Joined(2, c, Creating(false))]
  {
    var w1 := StartAndClaim(w, 1, c);
    w' := StartAndClaim(w1, 2, c);
    PlayConcat(w, [StartOf(1, c)] + [ClaimSlot(1, Clean)], [StartOf(2, c)] + [ClaimSlot(2, Clean)]);
    acts := [StartOf(1, c)] + [ClaimSlot(1, Clean)] + ([StartOf(2, c)] + [ClaimSlot(2, Clean)]);
    HarmlessConcat([StartOf(1, c)] + [ClaimSlot(1, Clean)], [StartOf(2, c)] + [ClaimSlot(2, Clean)]);
  }

  /** Two overlapping deliveries of one request: the first to claim is the second to create,
      and reports a conflict although its own request owns the slot. */
  lemma OverlapConflictsWithItself(w: World, c: Command) returns (worlds: seq<World>, acts: seq<Action>)
    requires Init(w) && Acceptable(w, c)
    ensures IsRun(worlds, acts) && worlds[0] == w && NoOutsiders(acts) && NoRemovals(acts)
    ensures var end := worlds[|acts|];
      && 1 in end.deliveries && end.deliveries[1].requestId == c.requestId && end.deliveries[1].pc == Finished(Conflict)
      && HeldBy(end.records, Slot(w.owner, NameOf(c)), c.requestId)
  {
    var w2, claims := TwoClaims(w, c);
    PlayOne(w2, Create(2, Clean));
    var w3 := Step(w2, Create(2, Clean));
    PlayConcat(w, claims, [Create(2, Clean)]);
    PlayOne(w3, Create(1, Clean));
    PlayConcat(w, claims + [Create(2, Clean)], [Create(1, Clean)]);
    HarmlessConcat(claims, [Create(2, Clean)]);
    HarmlessConcat(claims + [Create(2, Clean)], [Create(1, Clean)]);
    acts := claims + [Create(2, Clean)] + [Create(1, Clean)];
    worlds := PlaysFollows(w, acts);
  }

  /** One more action at the end. */
  lemma PlaySnoc(w: World, acts: seq<Action>, act: Action)
    requires Plays(w, acts) && Enabled(Play(w, acts), act)
    ensures Plays(w, acts + [act]) && Play(w, acts + [act]) == Step(Play(w, acts), act)
  {
    PlayOne(Play(w, acts), act);
    PlayConcat(w, acts, [act]);
  }

  /** An outsider's repository makes the first delivery report a conflict, but its claim stays. */
  lemma OutsiderIsMet(w: World, c: Command) returns (acts: seq<Action>, w': World)
    requires Init(w) && Acceptable(w, c)
    ensures Plays(w, acts) && w' == Play(w, acts) && w'.owner == w.owner && w'.host == w.host
    ensures w'.deliveries == map[1 := Joined(1, c, Finished(Conflict))]
    ensures HeldBy(w'.records, Slot(w.owner, NameOf(c)), c.requestId)
    ensures var key := HostKey(w, NameOf(c)); key in w'.creator && w'.creator[key] == None && key in w'.repos
  {
    PlayOne(w, CreateOutside(NameOf(c)));
    var w0 := Step(w, CreateOutside(NameOf(c)));
    var w1 := StartAndClaim(w0, 1, c);
    PlayConcat(w, [CreateOutside(NameOf(c))], [StartOf(1, c)] + [ClaimSlot(1, Clean)]);
    acts := [CreateOutside(NameOf(c))] + ([StartOf(1, c)] + [ClaimSlot(1, Clean)]);
    PlaySnoc(w, acts, Create(1, Clean));
    acts := acts + [Create(1, Clean)];
    w' := Step(w1, Create(1, Clean));
  }

  /** So a later delivery of the same request takes the repository for its own. */
  lemma OutsiderIsAdoptedLater(w: World, c: Command) returns (worlds: seq<World>, acts: seq<Action>)
    requires Init(w) && Acceptable(w, c)
    ensures IsRun(worlds, acts) && worlds[0] == w
    ensures var end, key := worlds[|acts|], HostKey(w, NameOf(c));
      && 1 in end.deliveries && end.deliveries[1].pc == Finished(Conflict)
      && key in end.creator && end.creator[key] == None && key in end.repos
      && 2 in end.deliveries && end.deliveries[2].pc == Saving(end.repos[key], true)
  {
    var w2;
    acts, w2 := OutsiderIsMet(w, c);
    var w3 := StartAndClaim(w2, 2, c);
    PlayConcat(w, acts, [StartOf(2, c)] + [ClaimSlot(2, Clean)]);
    acts := acts + ([StartOf(2, c)] + [ClaimSlot(2, Clean)]);
    var w4 := Step(w3, Create(2, Clean));
    PlaySnoc(w, acts, Create(2, Clean));
    acts := acts + [Create(2, Clean)];
    var w5 := Step(w4, Find(2, Clean));
    PlaySnoc(w, acts, Find(2, Clean));
    acts := acts + [Find(2, Clean)];
    worlds := PlaysFollows(w, acts);
  }

  /** A redelivery that dies after its claim leaves the inventory without the repository that an
      earlier delivery had saved, although the host still has it. */
  lemma RedeliveryForgets(w: World, c: Command) returns (worlds: seq<World>, acts: seq<Action>)
    requires Init(w) && Acceptable(w, c)
    ensures IsRun(worlds, acts) && worlds[0] == w && |acts| == 7
    ensures var slot := Slot(w.owner, NameOf(c)); var saved, end := worlds[4], worlds[7];
      && slot in saved.records && saved.records[slot].status.Created? && saved.records[slot].hosted.Some?
      && slot in end.records && end.records[slot].status.Claimed? && end.records[slot].hosted.None?
      && HostKey(w, NameOf(c)) in end.repos && end.repos == saved.repos
  {
    var clean, again := CleanRun(1, c, 0, false), [StartOf(2, c)] + [ClaimSlot(2, Clean)];
    CleanRunConverges(w, 1, c, 0);
    var saved := Play(w, clean);
    var before := PlaysFollows(w, clean);
    var claimed := StartAndClaim(saved, 2, c);
    PlaySnoc(saved, again, Crash(2));
    worlds := PlayExtendsRun(before, clean, again + [Crash(2)]);
    acts := clean + (again + [Crash(2)]);
    assert |clean| == 4 && worlds[4] == before[4] == saved;
  }
}
