/** The repository inventory: one table item per slot, written conditionally. */
module RecordStore {
  import opened Common
  import opened RepositoryRecord

  datatype Attribute =
    | PK | SK | Owner | RepositoryName | FullNameAttribute | RequestId | Template | StatusAttribute | CreatedAt
    | Gsi1Pk | Gsi1Sk | HostId | HtmlUrl | CloneUrl | DefaultBranch

  datatype Value = Text(text: string) | Number(number: int) | StatusName(status: Status) | Instant(ticks: int)

  type Item = map<Attribute, Value>

  /** The sort key of every item. */
  const SORT_KEY := "META"

  /** An item of a consistent record says Created exactly when it names the hosted repository. */
  function ToItem(record: Record): (item: Item)
    ensures PK in item && item[PK] == Text(SlotOf(record)) && SK in item && item[SK] == Text(SORT_KEY)
    ensures RequestId in item && item[RequestId] == Text(record.requestId)
    ensures HostId in item <==> record.hosted.Some?
    ensures StatusAttribute in item
    ensures Consistent(record) ==> (item[StatusAttribute] == StatusName(Created) <==> HostId in item)
  {
    var item := map[
      PK := Text(SlotOf(record)),
      SK := Text(SORT_KEY),
      Owner := Text(record.owner),
      RepositoryName := Text(record.name),
      FullNameAttribute := Text(FullName(record.owner, record.name)),
      RequestId := Text(record.requestId),
      Template := Text(record.template),
      StatusAttribute := StatusName(record.status),
      CreatedAt := Instant(record.createdAt),
      Gsi1Pk := Text("TEMPLATE#" + record.template),
      Gsi1Sk := Text(SlotOf(record))];
    match record.hosted
    case None => item
    case Some(hosted) =>
      item[HostId := Number(hosted.id)][HtmlUrl := Text(hosted.htmlUrl)]
          [CloneUrl := Text(hosted.cloneUrl)][DefaultBranch := Text(hosted.defaultBranch)]
  }

  /** The table finds an item by its partition key and its sort key. */
  type Key = (string, string)

  predicate HasKey(item: Item) {
    PK in item && item[PK].Text? && SK in item && item[SK].Text?
  }

  function KeyOf(item: Item): Key
    requires HasKey(item)
  {
    (item[PK].text, item[SK].text)
  }

  function KeyFor(record: Record): Key {
    (SlotOf(record), SORT_KEY)
  }

  // ---- Reading an item back ----

  /** What an item tells of the hosted repository: all but its owner and name on the host. */
  datatype HostedPart = HostedPart(id: int, htmlUrl: string, cloneUrl: string, defaultBranch: string)

  /** What an item tells, each field from the attribute named for it. */
  datatype Stored = Stored(owner: string, name: string, fullName: string, requestId: string, template: string,
                           status: Status, createdAt: int, hosted: Option<HostedPart>)

  predicate HasText(item: Item, attribute: Attribute) {
    attribute in item && item[attribute].Text?
  }

  /** None stands for an item that lacks an attribute or holds one of another type. */
  function FromItem(item: Item): Option<Stored> {
    if HasText(item, Owner) && HasText(item, RepositoryName) && HasText(item, FullNameAttribute)
       && HasText(item, RequestId) && HasText(item, Template)
       && StatusAttribute in item && item[StatusAttribute].StatusName?
       && CreatedAt in item && item[CreatedAt].Instant? then
      Some(Stored(item[Owner].text, item[RepositoryName].text, item[FullNameAttribute].text, item[RequestId].text,
                  item[Template].text, item[StatusAttribute].status, item[CreatedAt].ticks, HostedOf(item)))
    else None
  }

  function HostedOf(item: Item): Option<HostedPart> {
    if HostId in item && item[HostId].Number? && HasText(item, HtmlUrl) && HasText(item, CloneUrl)
       && HasText(item, DefaultBranch) then
      Some(HostedPart(item[HostId].number, item[HtmlUrl].text, item[CloneUrl].text, item[DefaultBranch].text))
    else None
  }

  /** The item keeps everything about its record but how the host spells the name. */
  lemma ItemTellsRecord(record: Record)
    ensures FromItem(ToItem(record)) == Some(Stored(
      record.owner, record.name, record.owner + "/" + record.name, record.requestId, record.template,
      record.status, record.createdAt,
      if record.hosted.None? then None
      else Some(HostedPart(record.hosted.value.id, record.hosted.value.htmlUrl, record.hosted.value.cloneUrl,
                           record.hosted.value.defaultBranch))))
  {
  }

  /** The item's own key in the table, and its place in the index by template. */
  lemma ItemIsKeyed(record: Record)
    ensures KeyOf(ToItem(record)) == KeyFor(record) == ("REPO#" + record.owner + "/" + record.name, "META")
    ensures ToItem(record)[Gsi1Pk] == Text("TEMPLATE#" + record.template)
    ensures ToItem(record)[Gsi1Sk] == Text("REPO#" + record.owner + "/" + record.name)
  {
    assert SlotOf(record) == "REPO#" + record.owner + "/" + record.name;
  }

  /** Two records are stored under one key exactly if they have the same full name; names under one
      owner are then the same. */
  lemma SameKeyIff(a: Record, b: Record)
    ensures KeyOf(ToItem(a)) == KeyOf(ToItem(b)) <==> a.owner + "/" + a.name == b.owner + "/" + b.name
    ensures a.owner == b.owner ==> (KeyOf(ToItem(a)) == KeyOf(ToItem(b)) <==> a.name == b.name)
  {
    ItemIsKeyed(a);
    ItemIsKeyed(b);
    var n := |"REPO#"|;
    assert SlotOf(a)[n..] == FullName(a.owner, a.name) && SlotOf(b)[n..] == FullName(b.owner, b.name);
    if a.owner == b.owner && KeyOf(ToItem(a)) == KeyOf(ToItem(b)) {
      SlotsDistinguishNames(a.owner, a.name, b.name);
    }
  }

  type Records = map<string, Record>

  /** Free, or held by this very request. */
  predicate Claimable(records: Records, record: Record) {
    SlotOf(record) !in records || records[SlotOf(record)].requestId == record.requestId
  }

  predicate HeldBy(records: Records, slot: string, requestId: string) {
    slot in records && records[slot].requestId == requestId
  }

  function PutClaim(records: Records, record: Record, fault: Fault): Records {
    if TakesEffect(fault) && Claimable(records, record) then records[SlotOf(record) := record] else records
  }

  function PutCreated(records: Records, record: Record, fault: Fault): Records {
    if TakesEffect(fault) && HeldBy(records, SlotOf(record), record.requestId)
    then records[SlotOf(record) := record] else records
  }

  datatype ClaimOutcome = ClaimCreated | AlreadyHeld | ClaimConflict | ClaimFault

  datatype SaveOutcome = Saved | SaveConflict | SaveFault | NothingToSave

  type Table = map<Key, Item>

  /** The table is the records, each rendered as an item under the item's own key. */
  predicate Renders(table: Table, records: Records) {
    && (forall key <- table :: key.1 == SORT_KEY && key.0 in records)
    && (forall slot <- records :: (slot, SORT_KEY) in table && RendersAt(table[(slot, SORT_KEY)], slot, records[slot]))
  }

  predicate RendersAt(item: Item, slot: string, record: Record) {
    item == ToItem(record) && KeyOf(item) == (slot, SORT_KEY) && Consistent(record)
  }

  lemma WriteRenders(table: Table, records: Records, record: Record)
    requires Renders(table, records) && Consistent(record)
    ensures KeyOf(ToItem(record)) == KeyFor(record)
    ensures Renders(table[KeyFor(record) := ToItem(record)], records[SlotOf(record) := record])
  {
    var table', records' := table[KeyFor(record) := ToItem(record)], records[SlotOf(record) := record];
    forall slot <- records'
      ensures (slot, SORT_KEY) in table' && RendersAt(table'[(slot, SORT_KEY)], slot, records'[slot])
    {
      if slot != SlotOf(record) {
        assert (slot, SORT_KEY) in table && RendersAt(table[(slot, SORT_KEY)], slot, records[slot]);
      }
    }
  }

  /** The condition of a put sees the item under the new item's key. */
  lemma ConditionSeesRecord(table: Table, records: Records, record: Record)
    requires Renders(table, records)
    ensures KeyFor(record) in table <==> SlotOf(record) in records
    ensures KeyFor(record) in table ==> RequestId in table[KeyFor(record)]
    ensures RequestIdIs(table, KeyFor(record), record.requestId) <==> HeldBy(records, SlotOf(record), record.requestId)
  {
    if SlotOf(record) in records {
      assert RendersAt(table[(SlotOf(record), SORT_KEY)], SlotOf(record), records[SlotOf(record)]);
    }
  }

  /** RequestId = :requestId */
  predicate RequestIdIs(table: Table, key: Key, requestId: string) {
    key in table && RequestId in table[key] && table[key][RequestId] == Text(requestId)
  }

  class DynamoDbRepositoryRecordStore {
    var table: Table
    ghost var records: Records

    ghost predicate Valid()
      reads this
    {
      Renders(table, records)
    }

    constructor ()
      ensures Valid() && records == map[]
    {
      table, records := map[], map[];
    }

    /** The put itself, once its condition has been checked: the item lands under its own key. */
    method PutItem(record: Record)
      requires Valid() && Consistent(record)
      modifies this
      ensures Valid() && records == old(records)[SlotOf(record) := record]
      ensures table == old(table)[KeyFor(record) := ToItem(record)]
    {
      WriteRenders(table, records, record);
      var item := ToItem(record);
      table := table[KeyOf(item) := item];
      records := records[SlotOf(record) := record];
    }

    /** attribute_not_exists(PK) OR RequestId = :requestId */
    method ClaimAsync(record: Record, fault: Fault) returns (outcome: ClaimOutcome)
      requires Valid() && Consistent(record)
      modifies this
      ensures Valid() && records == PutClaim(old(records), record, fault)
      ensures table == old(table) || table == old(table)[KeyFor(record) := ToItem(record)]
      ensures outcome.ClaimCreated? <==> fault.Clean? && SlotOf(record) !in old(records)
      ensures outcome.AlreadyHeld? <==> fault.Clean? && HeldBy(old(records), SlotOf(record), record.requestId)
      ensures outcome.ClaimConflict? <==> fault.Clean? && !Claimable(old(records), record)
      ensures outcome.ClaimCreated? || outcome.AlreadyHeld? ==>
        KeyFor(record) in table && table[KeyFor(record)] == ToItem(record)
    {
      ConditionSeesRecord(table, records, record);
      var replayed := RequestIdIs(table, KeyFor(record), record.requestId);
      var allowed := KeyFor(record) !in table || replayed;
      if TakesEffect(fault) && allowed {
        PutItem(record);
      }
      if !fault.Clean? {
        return ClaimFault;
      }
      if !allowed {
        return ClaimConflict;
      }
      return if replayed then AlreadyHeld else ClaimCreated;
    }

    method SaveCreatedAsync(record: Record, fault: Fault) returns (outcome: SaveOutcome)
      requires Valid() && Consistent(record)
      modifies this
      ensures Valid()
      ensures records == if record.hosted.None? then old(records) else PutCreated(old(records), record, fault)
      ensures table == old(table) || table == old(table)[KeyFor(record) := ToItem(record)]
      ensures outcome.NothingToSave? <==> record.hosted.None?
      ensures outcome.Saved? <==>
        record.hosted.Some? && fault.Clean? && HeldBy(old(records), SlotOf(record), record.requestId)
      ensures outcome.SaveConflict? <==>
        record.hosted.Some? && fault.Clean? && !HeldBy(old(records), SlotOf(record), record.requestId)
      ensures outcome.Saved? ==> KeyFor(record) in table && table[KeyFor(record)] == ToItem(record)
    {
      if record.hosted.None? {
        return NothingToSave;
      }
      ConditionSeesRecord(table, records, record);
      var allowed := RequestIdIs(table, KeyFor(record), record.requestId);
      if TakesEffect(fault) && allowed {
        PutItem(record);
      }
      if !fault.Clean? {
        return SaveFault;
      }
      return if allowed then Saved else SaveConflict;
    }
  }
}
