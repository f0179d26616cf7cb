/** The API's hand-written list splitting, and the provisioner's broker splitting next to it. */
module ConfigSplit {
  import opened Common
  import Names = ApplicationName

  // ---- Splitting ----

  /** The first n characters of the separator stand at i. */
  predicate Stands(s: string, sep: string, i: nat, n: nat)
    requires i + n <= |s| && n <= |sep|
  {
    n == 0 || (Stands(s, sep, i, n - 1) && s[i + n - 1] == sep[n - 1])
  }

  predicate OccursAt(s: string, sep: string, i: int) {
    0 <= i && i + |sep| <= |s| && Stands(s, sep, i, |sep|)
  }

  lemma {:induction false} StandsIsSlice(s: string, sep: string, i: nat, n: nat)
    requires i + n <= |s| && n <= |sep|
    ensures Stands(s, sep, i, n) <==> s[i..i + n] == sep[..n]
  {
    if n > 0 {
      StandsIsSlice(s, sep, i, n - 1);
      assert s[i..i + n] == s[i..i + n - 1] + [s[i + n - 1]];
      assert sep[..n] == sep[..n - 1] + [sep[n - 1]];
    }
  }

  /** That is, the separator is the slice there. */
  lemma OccursIsSlice(s: string, sep: string, i: nat)
    requires i + |sep| <= |s|
    ensures OccursAt(s, sep, i) <==> s[i..i + |sep|] == sep
  {
    StandsIsSlice(s, sep, i, |sep|);
    assert sep[..|sep|] == sep;
  }

  predicate Occurs(s: string, sep: string) {
    exists i | 0 <= i <= |s| :: OccursAt(s, sep, i)
  }

  /** The first place at or after i where the separator occurs. */
  function FirstFrom(s: string, sep: string, i: nat): (r: Option<nat>)
    ensures r.Some? ==> i <= r.value && OccursAt(s, sep, r.value)
    decreases |s| + 1 - i
  {
    if i + |sep| > |s| then None
    else if OccursAt(s, sep, i) then Some(i)
    else FirstFrom(s, sep, i + 1)
  }

  /** It is the first indeed, and there is none if it finds none. */
  lemma {:induction false} FirstIsFirst(s: string, sep: string, i: nat, j: nat)
    requires i <= j && (FirstFrom(s, sep, i).Some? ==> j < FirstFrom(s, sep, i).value)
    ensures !OccursAt(s, sep, j)
    decreases |s| + 1 - i
  {
    if i < j && i + |sep| <= |s| {
      FirstIsFirst(s, sep, i + 1, j);
    }
  }

  lemma {:induction false} FirstFromIs(s: string, sep: string, i: nat, m: nat)
    requires i <= m && OccursAt(s, sep, m) && forall j | i <= j < m :: !OccursAt(s, sep, j)
    ensures FirstFrom(s, sep, i) == Some(m)
    decreases m - i
  {
    if i < m {
      FirstFromIs(s, sep, i + 1, m);
    }
  }

  /** The pieces from `start` on: cut at the leftmost occurrence, then again after it. */
  function SplitFrom(s: string, sep: string, start: nat): (pieces: seq<string>)
    requires sep != [] && start <= |s|
    ensures pieces != []
    decreases |s| - start
  {
    match FirstFrom(s, sep, start)
    case None => [s[start..]]
    case Some(i) => [s[start..i]] + SplitFrom(s, sep, i + |sep|)
  }

  /** What strings.Split does. */
  function Split(s: string, sep: string): (pieces: seq<string>)
    requires sep != []
    ensures pieces != []
  {
    SplitFrom(s, sep, 0)
  }

  function Join(pieces: seq<string>, sep: string): string {
    if pieces == [] then [] else if |pieces| == 1 then pieces[0] else pieces[0] + sep + Join(pieces[1..], sep)
  }

  lemma JoinMore(piece: string, pieces: seq<string>, sep: string)
    requires pieces != []
    ensures Join([piece] + pieces, sep) == piece + sep + Join(pieces, sep)
  {
    assert ([piece] + pieces)[1..] == pieces;
  }

  lemma Reassemble(s: string, sep: string, start: nat, i: nat)
    requires start <= i && OccursAt(s, sep, i)
    ensures s[start..i] + sep + s[i + |sep|..] == s[start..]
  {
    OccursIsSlice(s, sep, i);
    assert s[start..] == s[start..i] + s[i..i + |sep|] + s[i + |sep|..];
  }

  lemma {:induction false} JoinUndoesSplitFrom(s: string, sep: string, start: nat)
    requires sep != [] && start <= |s|
    ensures Join(SplitFrom(s, sep, start), sep) == s[start..]
    decreases |s| - start
  {
    match FirstFrom(s, sep, start)
    case None =>
    case Some(i) =>
      JoinUndoesSplitFrom(s, sep, i + |sep|);
      JoinMore(s[start..i], SplitFrom(s, sep, i + |sep|), sep);
      Reassemble(s, sep, start, i);
  }

  lemma JoinUndoesSplit(s: string, sep: string)
    requires sep != []
    ensures Join(Split(s, sep), sep) == s
  {
    JoinUndoesSplitFrom(s, sep, 0);
    assert s[0..] == s;
  }

  lemma {:induction false} StandsInside(s: string, sep: string, from: nat, to: nat, j: nat, n: nat)
    requires from <= to <= |s| && from + j + n <= to && n <= |sep|
    ensures Stands(s[from..to], sep, j, n) <==> Stands(s, sep, from + j, n)
  {
    if n > 0 {
      StandsInside(s, sep, from, to, j, n - 1);
    }
  }

  /** Occurrences inside a stretch of the string. */
  lemma OccursInside(s: string, sep: string, from: nat, to: nat, j: nat)
    requires from <= to <= |s|
    ensures OccursAt(s[from..to], sep, j) <==> from + j + |sep| <= to && OccursAt(s, sep, from + j)
  {
    if from + j + |sep| <= to {
      StandsInside(s, sep, from, to, j, |sep|);
    }
  }

  /** A stretch up to the first occurrence, or to the end if there is none, has none inside. */
  lemma StretchAvoids(s: string, sep: string, start: nat, to: nat)
    requires sep != [] && start <= to <= |s|
    requires FirstFrom(s, sep, start).Some? ==> to == FirstFrom(s, sep, start).value
    ensures !Occurs(s[start..to], sep)
  {
    var piece := s[start..to];
    forall j | 0 <= j <= |piece| ensures !OccursAt(piece, sep, j) {
      OccursInside(s, sep, start, to, j);
      if start + j + |sep| <= to {
        FirstIsFirst(s, sep, start, start + j);
      }
    }
  }

  lemma PieceAndSeparator(s: string, sep: string, start: nat, i: nat)
    requires start <= i && OccursAt(s, sep, i)
    ensures s[start..i] + sep == s[start..i + |sep|]
  {
    OccursIsSlice(s, sep, i);
    assert s[start..i + |sep|] == s[start..i] + s[i..i + |sep|];
  }

  /** With the separator after it, the stretch runs up to its first occurrence. */
  lemma StretchEnds(s: string, sep: string, start: nat, i: nat, whole: string)
    requires sep != [] && start <= |s| && FirstFrom(s, sep, start) == Some(i) && whole == s[start..i + |sep|]
    ensures FirstFrom(whole, sep, 0) == Some(i - start)
  {
    OccursInside(s, sep, start, i + |sep|, i - start);
    forall j | 0 <= j < i - start ensures !OccursAt(whole, sep, j) {
      OccursInside(s, sep, start, i + |sep|, j);
      FirstIsFirst(s, sep, start, start + j);
    }
    FirstFromIs(whole, sep, 0, i - start);
  }

  /** A piece without the separator; one that is not the last runs up to its first occurrence. */
  predicate PieceOk(piece: string, sep: string, last: bool) {
    !Occurs(piece, sep) && (!last ==> FirstFrom(piece + sep, sep, 0) == Some(|piece|))
  }

  lemma {:induction false} PiecesFromAvoidSeparator(s: string, sep: string, start: nat, k: nat)
    requires sep != [] && start <= |s| && k < |SplitFrom(s, sep, start)|
    ensures var pieces := SplitFrom(s, sep, start); PieceOk(pieces[k], sep, k == |pieces| - 1)
    decreases |s| - start
  {
    match FirstFrom(s, sep, start)
    case None =>
      StretchAvoids(s, sep, start, |s|);
      assert s[start..|s|] == s[start..];
    case Some(i) =>
      if k == 0 {
        StretchAvoids(s, sep, start, i);
        PieceAndSeparator(s, sep, start, i);
        StretchEnds(s, sep, start, i, s[start..i] + sep);
      } else {
        PiecesFromAvoidSeparator(s, sep, i + |sep|, k - 1);
      }
  }

  /** No piece contains the separator, and each but the last runs up to its first occurrence. */
  lemma PiecesAvoidSeparator(s: string, sep: string, k: nat)
    requires sep != [] && k < |Split(s, sep)|
    ensures PieceOk(Split(s, sep)[k], sep, k == |Split(s, sep)| - 1)
  {
    PiecesFromAvoidSeparator(s, sep, 0, k);
  }

  lemma SplitFinds(s: string, sep: string, start: nat, i: nat)
    requires sep != [] && start <= |s| && FirstFrom(s, sep, start) == Some(i)
    ensures SplitFrom(s, sep, start) == [s[start..i]] + SplitFrom(s, sep, i + |sep|)
  {
  }

  lemma SplitMisses(s: string, sep: string, start: nat)
    requires sep != [] && start <= |s| && FirstFrom(s, sep, start) == None
    ensures SplitFrom(s, sep, start) == [s[start..]]
  {
  }

  lemma FirstStep(s: string, sep: string, i: nat)
    ensures FirstFrom(s, sep, i) ==
      if i + |sep| > |s| then None else if OccursAt(s, sep, i) then Some(i) else FirstFrom(s, sep, i + 1)
  {
  }

  /** The scan has cut off these pieces, and from `start` on has met no separator before i. */
  predicate Scanned(s: string, sep: string, pieces: seq<string>, start: nat, i: nat)
    requires sep != [] && start <= |s|
  {
    FirstFrom(s, sep, start) == FirstFrom(s, sep, i) && Split(s, sep) == pieces + SplitFrom(s, sep, start)
  }

  lemma ScanStarts(s: string, sep: string)
    requires sep != []
    ensures Scanned(s, sep, [], 0, 0)
  {
    assert [] + Split(s, sep) == Split(s, sep);
  }

  lemma ScanFinds(s: string, sep: string, pieces: seq<string>, start: nat, i: nat)
    requires sep != [] && start <= i <= |s| && OccursAt(s, sep, i) && Scanned(s, sep, pieces, start, i)
    ensures Scanned(s, sep, pieces + [s[start..i]], i + |sep|, i + |sep|)
  {
    FirstStep(s, sep, i);
    SplitFinds(s, sep, start, i);
    var rest := SplitFrom(s, sep, i + |sep|);
    assert pieces + ([s[start..i]] + rest) == (pieces + [s[start..i]]) + rest;
  }

  lemma ScanEnds(s: string, sep: string, pieces: seq<string>, start: nat, i: nat)
    requires sep != [] && start <= |s| && i + |sep| > |s| && Scanned(s, sep, pieces, start, i)
    ensures Split(s, sep) == pieces + [s[start..]]
  {
    FirstStep(s, sep, i);
    SplitMisses(s, sep, start);
  }

  /** The loop moves its own index past each separator it finds, and still ends. */
  method SplitString(s: string, sep: string) returns (result: seq<string>)
    ensures result == if sep == [] then [s] else Split(s, sep)
  {
    if |sep| == 0 {
      return [s];
    }
    result := [];
    var start, i := 0, 0;
    ScanStarts(s, sep);
    while i <= |s| - |sep|
      invariant 0 <= start <= i <= |s|
      invariant Scanned(s, sep, result, start, i)
      decreases |s| - i
    {
      OccursIsSlice(s, sep, i);
      if s[i..i + |sep|] == sep {
        ScanFinds(s, sep, result, start, i);
        result := result + [s[start..i]];
        start := i + |sep|;
        i := start - 1;
      } else {
        FirstStep(s, sep, i);
      }
      i := i + 1;
    }
    ScanEnds(s, sep, result, start, i);
    result := result + [s[start..]];
  }

  // ---- Trimming ----

  predicate Blank(c: char) {
    c == ' ' || c == '\t' || c == '\n' || c == '\r'
  }

  function TrimLeft(s: string): string {
    if s != [] && Blank(s[0]) then TrimLeft(s[1..]) else s
  }

  function TrimRight(s: string): string {
    if s != [] && Blank(s[|s| - 1]) then TrimRight(s[..|s| - 1]) else s
  }

  function Trim(s: string): string {
    TrimRight(TrimLeft(s))
  }

  lemma DropLast(s: string, start: nat, end: nat)
    requires start < end <= |s|
    ensures s[start..end][..|s[start..end]| - 1] == s[start..end - 1]
      && s[start..end][|s[start..end]| - 1] == s[end - 1]
  {
  }

  method TrimSpace(s: string) returns (r: string)
    ensures r == Trim(s)
  {
    var start, end := 0, |s|;
    while start < end && Blank(s[start])
      invariant 0 <= start <= end == |s|
      invariant TrimLeft(s) == TrimLeft(s[start..])
    {
      start := start + 1;
    }
    assert TrimLeft(s) == s[start..] == s[start..end];
    while end > start && Blank(s[end - 1])
      invariant start <= end <= |s|
      invariant TrimRight(s[start..]) == TrimRight(s[start..end])
    {
      DropLast(s, start, end);
      end := end - 1;
    }
    r := s[start..end];
  }

  // ---- Keeping what is not blank ----

  function Kept(pieces: seq<string>, trim: string -> string): seq<string> {
    if pieces == [] then []
    else (if trim(pieces[0]) == [] then [] else [trim(pieces[0])]) + Kept(pieces[1..], trim)
  }

  lemma {:induction false} KeptSnoc(pieces: seq<string>, piece: string, trim: string -> string)
    ensures Kept(pieces + [piece], trim) == Kept(pieces, trim) + if trim(piece) == [] then [] else [trim(piece)]
  {
    if pieces == [] {
      assert pieces + [piece] == [piece];
    } else {
      assert (pieces + [piece])[1..] == pieces[1..] + [piece];
      KeptSnoc(pieces[1..], piece, trim);
    }
  }

  /** The pieces kept are, in order, those that trim to something, trimmed. */
  lemma {:induction false} KeptInOrder(pieces: seq<string>, trim: string -> string) returns (at: seq<nat>)
    ensures |at| == |Kept(pieces, trim)|
    ensures forall k | 0 <= k < |at| ::
      at[k] < |pieces| && trim(pieces[at[k]]) != [] && Kept(pieces, trim)[k] == trim(pieces[at[k]])
    ensures forall k, l | 0 <= k < l < |at| :: at[k] < at[l]
    ensures forall i: nat | i < |pieces| && trim(pieces[i]) != [] :: i in at
  {
    if pieces == [] {
      at := [];
    } else {
      var init, last := pieces[..|pieces| - 1], pieces[|pieces| - 1];
      var before := KeptInOrder(init, trim);
      KeptSnoc(init, last, trim);
      assert pieces == init + [last];
      at := before + if trim(last) == [] then [] else [|init|];
      forall i: nat | i < |pieces| && trim(pieces[i]) != [] ensures i in at {
        if i < |init| {
          assert init[i] == pieces[i] && i in before;
        } else {
          assert at[|before|] == i;
        }
      }
    }
  }

  method SplitAndTrim(s: string, sep: string) returns (result: seq<string>)
    ensures result == Kept(if sep == [] then [s] else Split(s, sep), Trim)
  {
    result := [];
    var parts := SplitString(s, sep);
    for k := 0 to |parts|
      invariant result == Kept(parts[..k], Trim)
    {
      var trimmed := TrimSpace(parts[k]);
      assert parts[..k + 1] == parts[..k] + [parts[k]];
      KeptSnoc(parts[..k], parts[k], Trim);
      if trimmed != "" {
        result := result + [trimmed];
      }
    }
    assert parts[..|parts|] == parts;
  }

  /** The provisioner uses the standard library, whose trimming knows every Unicode space. */
  method SplitBrokers(csv: string) returns (brokers: seq<string>)
    ensures brokers == Kept(Split(csv, ","), Names.Trim)
  {
    brokers := [];
    var parts := Split(csv, ",");
    for k := 0 to |parts|
      invariant brokers == Kept(parts[..k], Names.Trim)
    {
      var b := Names.Trim(parts[k]);
      assert parts[..k + 1] == parts[..k] + [parts[k]];
      KeptSnoc(parts[..k], parts[k], Names.Trim);
      if b != "" {
        brokers := brokers + [b];
      }
    }
    assert parts[..|parts|] == parts;
  }

  // ---- When the two agree ----

  /** What the API's trimming leaves neither starts nor ends with some other space. */
  predicate Clean(piece: string) {
    Trim(piece) == [] || (!Names.IsWhiteSpace(Trim(piece)[0]) && !Names.IsWhiteSpace(Trim(piece)[|Trim(piece)| - 1]))
  }

  lemma {:induction false} TrimStartAppend(s: string, c: char)
    ensures Names.TrimStart(s + [c]) ==
      if Names.TrimStart(s) == [] then Names.TrimStart([c]) else Names.TrimStart(s) + [c]
  {
    if s == [] {
      assert s + [c] == [c];
    } else if Names.IsWhiteSpace(s[0]) {
      assert (s + [c])[1..] == s[1..] + [c];
      TrimStartAppend(s[1..], c);
    }
  }

  lemma TrimDropsSpace(s: string, c: char)
    requires Names.IsWhiteSpace(c)
    ensures Names.Trim(s + [c]) == Names.Trim(s)
  {
    TrimStartAppend(s, c);
    var t := Names.TrimStart(s);
    assert (t + [c])[..|t|] == t;
    assert Names.TrimStart([c]) == [];
  }

  lemma {:induction false} TrimAbsorbsRight(s: string)
    ensures Names.Trim(TrimRight(s)) == Names.Trim(s)
  {
    if s != [] && Blank(s[|s| - 1]) {
      var init := s[..|s| - 1];
      TrimAbsorbsRight(init);
      assert s == init + [s[|s| - 1]];
      TrimDropsSpace(init, s[|s| - 1]);
    }
  }

  lemma {:induction false} TrimAbsorbsLeft(s: string)
    ensures Names.Trim(TrimLeft(s)) == Names.Trim(s)
  {
    if s != [] && Blank(s[0]) {
      TrimAbsorbsLeft(s[1..]);
    }
  }

  lemma {:induction false} TrimStartShrinks(s: string)
    ensures |Names.TrimStart(s)| <= |s|
    ensures Names.TrimStart(s) == s <==> s == [] || !Names.IsWhiteSpace(s[0])
    ensures |Names.TrimStart(s)| == |s| ==> Names.TrimStart(s) == s
  {
    if s != [] {
      TrimStartShrinks(s[1..]);
    }
  }

  lemma {:induction false} TrimEndShrinks(s: string)
    ensures |Names.TrimEnd(s)| <= |s|
    ensures Names.TrimEnd(s) == s <==> s == [] || !Names.IsWhiteSpace(s[|s| - 1])
    ensures |Names.TrimEnd(s)| == |s| ==> Names.TrimEnd(s) == s
  {
    if s != [] {
      TrimEndShrinks(s[..|s| - 1]);
    }
  }

  /** The standard trimming takes away at least as much, and as much exactly from clean pieces. */
  lemma TrimsCompare(piece: string)
    ensures |Names.Trim(piece)| <= |Trim(piece)|
    ensures Clean(piece) <==> Names.Trim(piece) == Trim(piece)
    ensures |Names.Trim(piece)| == |Trim(piece)| ==> Clean(piece)
  {
    TrimAbsorbsLeft(piece);
    TrimAbsorbsRight(TrimLeft(piece));
    TrimStartShrinks(Trim(piece));
    TrimEndShrinks(Names.TrimStart(Trim(piece)));
  }

  function Total(pieces: seq<string>): nat {
    if pieces == [] then 0 else |pieces[0]| + Total(pieces[1..])
  }

  lemma {:induction false} TotalConcat(a: seq<string>, b: seq<string>)
    ensures Total(a + b) == Total(a) + Total(b)
  {
    if a == [] {
      assert a + b == b;
    } else {
      assert (a + b)[1..] == a[1..] + b;
      TotalConcat(a[1..], b);
    }
  }

  lemma {:induction false} KeptCompare(pieces: seq<string>)
    ensures Total(Kept(pieces, Names.Trim)) <= Total(Kept(pieces, Trim))
    ensures Total(Kept(pieces, Names.Trim)) == Total(Kept(pieces, Trim)) ==> forall piece <- pieces :: Clean(piece)
    ensures (forall piece <- pieces :: Clean(piece)) ==> Kept(pieces, Names.Trim) == Kept(pieces, Trim)
  {
    if pieces != [] {
      var p, rest := pieces[0], pieces[1..];
      TrimsCompare(p);
      KeptCompare(rest);
      assert pieces == [p] + rest;
      assert p in pieces && forall piece <- rest :: piece in pieces;
      TotalConcat(if Trim(p) == [] then [] else [Trim(p)], Kept(rest, Trim));
      TotalConcat(if Names.Trim(p) == [] then [] else [Names.Trim(p)], Kept(rest, Names.Trim));
    }
  }

  /** The two splitters agree on a string exactly when none of its pieces, once trimmed by the
      API, still starts or ends with a space of another kind. */
  lemma SplittersAgree(s: string)
    ensures Kept(Split(s, ","), Trim) == Kept(Split(s, ","), Names.Trim) <==>
      forall piece <- Split(s, ",") :: Clean(piece)
  {
    KeptCompare(Split(s, ","));
  }

  /** In particular they agree on every string whose only spaces are the four. */
  lemma SplittersAgreeOnPlainSpaces(s: string)
    requires forall c <- s :: Names.IsWhiteSpace(c) ==> Blank(c)
    ensures Kept(Split(s, ","), Trim) == Kept(Split(s, ","), Names.Trim)
  {
    var pieces := Split(s, ",");
    forall k | 0 <= k < |pieces| ensures Clean(pieces[k]) {
      PiecesAreInside(s, ",", 0, k);
      TrimIsInside(pieces[k]);
    }
    SplittersAgree(s);
  }

  lemma {:induction false} PiecesAreInside(s: string, sep: string, start: nat, k: nat)
    requires sep != [] && start <= |s| && k < |SplitFrom(s, sep, start)|
    ensures forall c <- SplitFrom(s, sep, start)[k] :: c in s
    decreases |s| - start
  {
    match FirstFrom(s, sep, start)
    case None =>
    case Some(i) =>
      if k > 0 {
        PiecesAreInside(s, sep, i + |sep|, k - 1);
      }
  }

  lemma {:induction false} TrimLeftIsInside(s: string)
    ensures TrimLeft(s) == [] || !Blank(TrimLeft(s)[0])
    ensures forall c <- TrimLeft(s) :: c in s
  {
    if s != [] && Blank(s[0]) {
      TrimLeftIsInside(s[1..]);
    }
  }

  lemma {:induction false} TrimRightIsInside(s: string)
    ensures TrimRight(s) == [] || (!Blank(TrimRight(s)[|TrimRight(s)| - 1]) && TrimRight(s)[0] == s[0])
    ensures forall c <- TrimRight(s) :: c in s
  {
    if s != [] && Blank(s[|s| - 1]) {
      TrimRightIsInside(s[..|s| - 1]);
    }
  }

  lemma {:induction false} TrimLeftStrips(s: string) returns (a: nat)
    ensures a <= |s| && TrimLeft(s) == s[a..] && forall k | 0 <= k < a :: Blank(s[k])
  {
    if s != [] && Blank(s[0]) {
      var b := TrimLeftStrips(s[1..]);
      a := b + 1;
      assert s[1..][b..] == s[a..];
      forall k | 0 <= k < a ensures Blank(s[k]) {
        assert k > 0 ==> s[k] == s[1..][k - 1];
      }
    } else {
      a := 0;
      assert s[0..] == s;
    }
  }

  lemma {:induction false} TrimRightStrips(s: string) returns (b: nat)
    ensures b <= |s| && TrimRight(s) == s[..b] && forall k | b <= k < |s| :: Blank(s[k])
  {
    if s != [] && Blank(s[|s| - 1]) {
      b := TrimRightStrips(s[..|s| - 1]);
      assert s[..|s| - 1][..b] == s[..b];
      forall k | b <= k < |s| ensures Blank(s[k]) {
        assert k < |s| - 1 ==> s[k] == s[..|s| - 1][k];
      }
    } else {
      b := |s|;
      assert s[..|s|] == s;
    }
  }

  /** What trimming takes away is one of the four at every place. */
  lemma TrimStripsBlanks(s: string) returns (a: nat, b: nat)
    ensures a <= b <= |s| && Trim(s) == s[a..b]
    ensures forall k | 0 <= k < a || b <= k < |s| :: s[k] == ' ' || s[k] == '\t' || s[k] == '\n' || s[k] == '\r'
  {
    a := TrimLeftStrips(s);
    var n := TrimRightStrips(s[a..]);
    b := a + n;
    assert s[a..][..n] == s[a..b];
    forall k | 0 <= k < a || b <= k < |s| ensures Blank(s[k]) {
      assert k >= b ==> s[k] == s[a..][k - a];
    }
  }

  lemma TrimIsInside(s: string)
    ensures Trim(s) == [] || (!Blank(Trim(s)[0]) && !Blank(Trim(s)[|Trim(s)| - 1]))
    ensures Trim(s) == [] || (Trim(s)[0] !in " \t\n\r" && Trim(s)[|Trim(s)| - 1] !in " \t\n\r")
    ensures forall c <- Trim(s) :: c in s
  {
    TrimLeftIsInside(s);
    TrimRightIsInside(TrimLeft(s));
  }
}
