/** The platform's record of a repository: claimed by one request before the repository
    exists, and marked created once the host confirms it. */
module RepositoryRecord {
  import opened Common
  import Names = ApplicationName

  datatype Hosted = Hosted(id: int, owner: string, name: string, htmlUrl: string, cloneUrl: string,
                           defaultBranch: string)

  datatype Status = Claimed | Created

  datatype Record = Record(
    owner: string,
    name: string,
    requestId: string,
    template: string,
    status: Status,
    createdAt: int,
    hosted: Option<Hosted>)

  function FullName(owner: string, name: string): string {
    owner + "/" + name
  }

  /** The key a record is stored under. */
  function Slot(owner: string, name: string): string {
    "REPO#" + FullName(owner, name)
  }

  function SlotOf(record: Record): string {
    Slot(record.owner, record.name)
  }

  predicate Blank(text: string) {
    Names.Trim(text) == []
  }

  lemma BlankIff(text: string)
    ensures Blank(text) <==> forall c <- text :: Names.IsWhiteSpace(c)
  {
    Names.BlankTrimsAway(text);
  }

  /** None stands for an argument exception. */
  function Claim(owner: string, name: string, requestId: string, template: string, now: int): Option<Record> {
    if Blank(owner) || Blank(requestId) || Blank(template) then None
    else Some(Record(owner, name, requestId, template, Claimed, now, None))
  }

  function MarkCreated(record: Record, hosted: Hosted): Option<Record> {
    if !SameName(hosted, record) then None
    else Some(record.(status := Created, hosted := Some(hosted)))
  }

  predicate SameName(hosted: Hosted, record: Record) {
    Fold(FullName(hosted.owner, hosted.name)) == Fold(FullName(record.owner, record.name))
  }

  /** Created exactly when it holds a hosted repository, whose name then matches. */
  predicate Consistent(record: Record) {
    && (record.status.Created? <==> record.hosted.Some?)
    && (record.hosted.Some? ==> SameName(record.hosted.value, record))
  }

  // ---- Names up to case ----

  function FoldChar(c: char): char {
    if 'a' <= c <= 'z' then c - 'a' + 'A' else c
  }

  function Fold(text: string): string {
    seq(|text|, i requires 0 <= i < |text| => FoldChar(text[i]))
  }

  /** Two characters are the same but for the case of an ASCII letter. */
  predicate SameLetter(a: char, b: char) {
    || a == b
    || ('a' <= a <= 'z' && 'A' <= b <= 'Z' && a as int - 'a' as int == b as int - 'A' as int)
    || ('a' <= b <= 'z' && 'A' <= a <= 'Z' && b as int - 'a' as int == a as int - 'A' as int)
  }

  /** Folding tells apart exactly what differs in more than that. */
  lemma FoldIff(a: string, b: string)
    ensures Fold(a) == Fold(b) <==> |a| == |b| && forall i | 0 <= i < |a| :: SameLetter(a[i], b[i])
  {
    if Fold(a) == Fold(b) {
      assert |a| == |Fold(a)| == |Fold(b)| == |b|;
      forall i | 0 <= i < |a| ensures SameLetter(a[i], b[i]) {
        assert Fold(a)[i] == Fold(b)[i];
      }
    }
  }

  lemma FoldConcat(a: string, b: string)
    ensures Fold(a + b) == Fold(a) + Fold(b)
  {
  }

  /** Valid application names are lowercase already, so ignoring case confuses no two. */
  lemma FoldIsInjectiveOnNames(owner: string, a: string, b: string)
    requires Names.Valid(a) && Names.Valid(b)
    requires Fold(FullName(owner, a)) == Fold(FullName(owner, b))
    ensures a == b
  {
    FoldConcat(owner + "/", a);
    FoldConcat(owner + "/", b);
    var n := |owner + "/"|;
    assert Fold(a) == Fold(FullName(owner, a))[n..] == Fold(FullName(owner, b))[n..] == Fold(b);
    assert |a| == |Fold(a)| == |Fold(b)| == |b|;
    forall i | 0 <= i < |a| ensures a[i] == b[i] {
      assert Fold(a)[i] == Fold(b)[i];
      assert a[i] in a && b[i] in b;
    }
  }

  lemma SlotsDistinguishNames(owner: string, a: string, b: string)
    requires Slot(owner, a) == Slot(owner, b)
    ensures a == b
  {
    var n := |"REPO#" + owner + "/"|;
    assert Slot(owner, a) == "REPO#" + owner + "/" + a && Slot(owner, b) == "REPO#" + owner + "/" + b;
    assert a == Slot(owner, a)[n..] && b == Slot(owner, b)[n..];
  }
}
