/** HTTP responses as a handler produces them: one call after another on a response
    writer, seen through the recorder that the idempotency middleware wraps around it. */
module Http {
  import opened Common

  newtype byte = b: int | 0 <= b < 256

  type Bytes = seq<byte>

  /** A header map: each name carries a list of values. */
  type Header = map<string, seq<string>>

  const STATUS_OK := 200

  /** Headers that belong to one exchange and are never replayed. */
  const SKIPPED: set<string> :=
    {"Date", "X-Request-Id", "X-Response-Time", "Content-Length", "Transfer-Encoding", "Connection"}

  /** What a handler may do to its response writer. */
  datatype Call =
    | SetHeader(name: string, values: seq<string>)
    | DelHeader(name: string)
    | WriteHeader(status: int)
    | Write(bytes: Bytes)

  /** The wrapped writer: the live header map, the status codes and bytes it sends, and the
      header map as it stood when the final status code committed it. */
  datatype Wire = Wire(header: Header, statuses: seq<int>, committed: Header, body: Bytes)

  datatype Recorder = Recorder(wire: Wire, status: int, wroteHeader: bool, body: Bytes)

  const FRESH: Recorder := Recorder(Wire(map[], [], map[], []), STATUS_OK, false, [])

  /** Statuses that only announce a response, any number of which may go before the final one. */
  predicate Informational(status: int) {
    100 <= status <= 199 && status != 101
  }

  /** The final status is among them: it is the last, for nothing is sent after it. */
  predicate Decided(statuses: seq<int>) {
    statuses != [] && !Informational(statuses[|statuses| - 1])
  }

  /** net/http sends informational statuses at once and one final status, and ignores the rest. */
  function WireStatus(w: Wire, status: int): Wire {
    if Decided(w.statuses) then w
    else w.(statuses := w.statuses + [status], committed := if Informational(status) then w.committed else w.header)
  }

  /** Bytes without a final status send 200 first, as net/http documents. */
  function WireBytes(w: Wire, bytes: Bytes): Wire {
    var w := if Decided(w.statuses) then w else WireStatus(w, STATUS_OK);
    w.(body := w.body + bytes)
  }

  /** When the handler has returned without a final status, net/http sends 200. */
  function Finish(w: Wire): Wire {
    WireStatus(w, STATUS_OK)
  }

  function RecordStatus(r: Recorder, status: int): Recorder {
    if r.wroteHeader then r
    else r.(status := status, wroteHeader := true, wire := WireStatus(r.wire, status))
  }

  function RecordBytes(r: Recorder, bytes: Bytes): Recorder {
    var r := if r.wroteHeader then r else RecordStatus(r, STATUS_OK);
    r.(body := r.body + bytes, wire := WireBytes(r.wire, bytes))
  }

  function Apply(r: Recorder, call: Call): Recorder {
    match call
    case SetHeader(name, values) => r.(wire := r.wire.(header := r.wire.header[name := values]))
    case DelHeader(name) => r.(wire := r.wire.(header := r.wire.header - {name}))
    case WriteHeader(status) => RecordStatus(r, status)
    case Write(bytes) => RecordBytes(r, bytes)
  }

  function ApplyAll(r: Recorder, calls: seq<Call>): Recorder {
    if calls == [] then r else Apply(ApplyAll(r, calls[..|calls|-1]), calls[|calls|-1])
  }

  /** The same call on the writer itself, with no recorder around it. */
  function Pass(w: Wire, call: Call): Wire {
    match call
    case SetHeader(name, values) => w.(header := w.header[name := values])
    case DelHeader(name) => w.(header := w.header - {name})
    case WriteHeader(status) => WireStatus(w, status)
    case Write(bytes) => WireBytes(w, bytes)
  }

  function PassAll(w: Wire, calls: seq<Call>): Wire {
    if calls == [] then w else Pass(PassAll(w, calls[..|calls|-1]), calls[|calls|-1])
  }

  /** The first value of every header worth replaying. */
  function Captured(header: Header): map<string, string> {
    map name | name in header && name !in SKIPPED && |header[name]| > 0 :: header[name][0]
  }

  /** A status of zero stands for one that was never written. */
  function Effective(status: int): int {
    if status == 0 then STATUS_OK else status
  }

  predicate ShouldCache(status: int) {
    Effective(status) < 500
  }

  // ---- What the calls mean, read straight off the list of calls ----

  /** The first WriteHeader or Write decides the status. */
  function StatusOf(calls: seq<Call>): int {
    if calls == [] then STATUS_OK
    else match calls[0]
      case WriteHeader(status) => status
      case Write(_) => STATUS_OK
      case _ => StatusOf(calls[1..])
  }

  function BytesIn(call: Call): Bytes {
    match call
    case Write(bytes) => bytes
    case _ => []
  }

  /** Every byte written, in order. */
  function BytesOf(calls: seq<Call>): Bytes {
    if calls == [] then [] else BytesIn(calls[0]) + BytesOf(calls[1..])
  }

  predicate Commits(call: Call) {
    call.WriteHeader? || call.Write?
  }

  predicate Committed(calls: seq<Call>) {
    exists call <- calls :: Commits(call)
  }

  predicate WritesBytes(calls: seq<Call>) {
    exists call <- calls :: call.Write?
  }

  /** What the recorder lets through: the first status, and 200 when bytes follow an
      informational one. */
  function StatusesOf(calls: seq<Call>): seq<int> {
    if !Committed(calls) then []
    else if Informational(StatusOf(calls)) && WritesBytes(calls) then [StatusOf(calls), STATUS_OK]
    else [StatusOf(calls)]
  }

  /** The value list a name holds after the calls: that of the last call to touch it. */
  function ValuesOf(calls: seq<Call>, name: string): Option<seq<string>> {
    if calls == [] then None
    else match calls[|calls|-1]
      case SetHeader(n, values) => if n == name then Some(values) else ValuesOf(calls[..|calls|-1], name)
      case DelHeader(n) => if n == name then None else ValuesOf(calls[..|calls|-1], name)
      case _ => ValuesOf(calls[..|calls|-1], name)
  }

  lemma CommittedConcat(a: seq<Call>, b: seq<Call>)
    ensures Committed(a + b) <==> Committed(a) || Committed(b)
  {
    assert forall call <- a :: call in a + b;
    assert forall call <- b :: call in a + b;
  }

  lemma {:induction false} StatusOfSnoc(calls: seq<Call>, call: Call)
    ensures StatusOf(calls + [call]) == if Committed(calls) then StatusOf(calls) else StatusOf([call])
  {
    if calls == [] {
      assert calls + [call] == [call];
    } else {
      assert (calls + [call])[1..] == calls[1..] + [call];
      assert calls == [calls[0]] + calls[1..];
      CommittedConcat([calls[0]], calls[1..]);
      assert calls[0] in [calls[0]];
      StatusOfSnoc(calls[1..], call);
    }
  }

  lemma Associate(a: Bytes, b: Bytes, c: Bytes)
    ensures (a + b) + c == a + (b + c)
  {
  }

  lemma BytesOfOne(call: Call)
    ensures BytesOf([call]) == BytesIn(call) == [] + BytesIn(call)
  {
    assert [call][1..] == [];
  }

  lemma {:induction false} BytesOfSnoc(calls: seq<Call>, call: Call)
    ensures BytesOf(calls + [call]) == BytesOf(calls) + BytesIn(call)
  {
    if calls == [] {
      assert calls + [call] == [call];
      BytesOfOne(call);
    } else {
      var all, rest := calls + [call], calls[1..];
      assert all[0] == calls[0] && all[1..] == rest + [call];
      BytesOfSnoc(rest, call);
      Associate(BytesIn(calls[0]), BytesOf(rest), BytesIn(call));
    }
  }

  lemma ApplySnoc(r: Recorder, calls: seq<Call>, call: Call)
    ensures ApplyAll(r, calls + [call]) == Apply(ApplyAll(r, calls), call)
  {
    assert (calls + [call])[..|calls|] == calls;
  }

  lemma {:induction false} ApplyAllConcat(r: Recorder, a: seq<Call>, b: seq<Call>)
    ensures ApplyAll(r, a + b) == ApplyAll(ApplyAll(r, a), b)
    decreases |b|
  {
    if b == [] {
      assert a + b == a;
    } else {
      assert a + b == (a + b[..|b|-1]) + [b[|b|-1]];
      ApplyAllConcat(r, a, b[..|b|-1]);
      ApplySnoc(r, a + b[..|b|-1], b[|b|-1]);
    }
  }

  lemma {:induction false} RecorderKeepsBytes(calls: seq<Call>)
    ensures var r := ApplyAll(FRESH, calls); r.body == r.wire.body == BytesOf(calls)
  {
    if calls != [] {
      var init, last := calls[..|calls|-1], calls[|calls|-1];
      assert calls == init + [last];
      RecorderKeepsBytes(init);
      BytesOfSnoc(init, last);
    }
  }

  /** The recorder's flag, its status and the statuses it lets through are those of the calls. */
  predicate StatusKept(r: Recorder, calls: seq<Call>) {
    && r.wroteHeader == Committed(calls)
    && r.status == StatusOf(calls)
    && r.wire.statuses == StatusesOf(calls)
  }

  lemma WritesBytesSnoc(calls: seq<Call>, call: Call)
    ensures WritesBytes(calls + [call]) <==> WritesBytes(calls) || call.Write?
  {
    assert forall c <- calls :: c in calls + [call];
    assert call in calls + [call];
  }

  lemma CallKeepsStatus(r: Recorder, calls: seq<Call>, call: Call)
    requires StatusKept(r, calls)
    ensures StatusKept(Apply(r, call), calls + [call])
  {
    StatusOfSnoc(calls, call);
    CommittedConcat(calls, [call]);
    WritesBytesSnoc(calls, call);
    assert call in [call];
    if !Committed(calls) {
      UncommittedDefaults(calls);
      assert !WritesBytes(calls);
    }
  }

  /** A recorder around a writer whose headers may be set but that has sent nothing. */
  function Around(w: Wire): Recorder {
    FRESH.(wire := w)
  }

  lemma {:induction false} RecorderKeepsStatus(w: Wire, calls: seq<Call>)
    requires w.statuses == []
    ensures StatusKept(ApplyAll(Around(w), calls), calls)
  {
    if calls != [] {
      var init, last := calls[..|calls|-1], calls[|calls|-1];
      RecorderKeepsStatus(w, init);
      CallKeepsStatus(ApplyAll(Around(w), init), init, last);
      assert calls == init + [last];
    }
  }

  lemma {:induction false} RecorderKeepsHeaders(calls: seq<Call>)
    ensures var header := ApplyAll(FRESH, calls).wire.header;
      forall name :: ValuesOf(calls, name) == if name in header then Some(header[name]) else None
  {
    if calls != [] {
      RecorderKeepsHeaders(calls[..|calls|-1]);
    }
  }

  /** Whatever a handler does, the recorder ends up holding the first status and the bytes it was
      given, and lets through those bytes and that status, with 200 after an informational one. */
  lemma RecorderIsFaithful(calls: seq<Call>)
    ensures var r := ApplyAll(FRESH, calls);
      && r.wroteHeader == Committed(calls)
      && r.status == StatusOf(calls)
      && r.body == r.wire.body == BytesOf(calls)
      && r.wire.statuses == StatusesOf(calls)
      && forall name :: ValuesOf(calls, name) == if name in r.wire.header then Some(r.wire.header[name]) else None
  {
    RecorderKeepsBytes(calls);
    RecorderKeepsStatus(FRESH.wire, calls);
    RecorderKeepsHeaders(calls);
  }

  // ---- With and without the recorder ----

  /** The first call that decides a status, informational or not, and what comes after it. */
  function Commit(calls: seq<Call>): Option<Call> {
    if calls == [] then None else if Commits(calls[0]) then Some(calls[0]) else Commit(calls[1..])
  }

  function AfterCommit(calls: seq<Call>): seq<Call> {
    if calls == [] then [] else if Commits(calls[0]) then calls[1..] else AfterCommit(calls[1..])
  }

  /** The first status is informational and a second WriteHeader comes before any bytes: the
      recorder drops that one. */
  predicate Swallows(calls: seq<Call>) {
    && Commit(calls).Some? && Commit(calls).value.WriteHeader? && Informational(Commit(calls).value.status)
    && Commit(AfterCommit(calls)).Some? && Commit(AfterCommit(calls)).value.WriteHeader?
  }

  /** The status it drops. */
  function Swallowed(calls: seq<Call>): int
    requires Swallows(calls)
  {
    Commit(AfterCommit(calls)).value.status
  }

  lemma {:induction false} CommitSnoc(calls: seq<Call>, call: Call)
    ensures Commit(calls + [call]) ==
      if Commit(calls).Some? then Commit(calls) else if Commits(call) then Some(call) else None
    ensures AfterCommit(calls + [call]) == if Commit(calls).Some? then AfterCommit(calls) + [call] else []
  {
    if calls == [] {
      assert calls + [call] == [call];
    } else {
      assert (calls + [call])[1..] == calls[1..] + [call];
      CommitSnoc(calls[1..], call);
    }
  }

  lemma {:induction false} CommitIsFirst(calls: seq<Call>)
    ensures Commit(calls).Some? <==> Committed(calls)
    ensures Commit(calls).Some? ==>
      && StatusOf(calls) == (if Commit(calls).value.WriteHeader? then Commit(calls).value.status else STATUS_OK)
      && Commits(Commit(calls).value)
      && (WritesBytes(calls) <==> Commit(calls).value.Write? || WritesBytes(AfterCommit(calls)))
  {
    if calls != [] {
      var rest := calls[1..];
      CommitIsFirst(rest);
      assert calls == [calls[0]] + rest;
      CommittedConcat([calls[0]], rest);
      assert calls[0] in [calls[0]];
      WritesBytesHead(calls);
    }
  }

  lemma WritesBytesHead(calls: seq<Call>)
    requires calls != []
    ensures WritesBytes(calls) <==> calls[0].Write? || WritesBytes(calls[1..])
  {
    assert calls[0] in calls && forall call <- calls[1..] :: call in calls;
    if WritesBytes(calls) && !calls[0].Write? {
      var call :| call in calls && call.Write?;
      assert call in calls[1..];
    }
  }

  /** A WriteHeader after an informational status, with no bytes between, is dropped. */
  lemma UndecidedSwallows(calls: seq<Call>, status: int)
    requires Committed(calls) && !Decided(StatusesOf(calls))
    ensures Swallows(calls + [WriteHeader(status)])
  {
    CommitIsFirst(calls);
    CommitSnoc(calls, WriteHeader(status));
    CommitSnoc(AfterCommit(calls), WriteHeader(status));
    CommitIsFirst(AfterCommit(calls));
  }

  lemma SwallowsStays(calls: seq<Call>, call: Call)
    requires Swallows(calls)
    ensures Swallows(calls + [call]) && Swallowed(calls + [call]) == Swallowed(calls)
  {
    CommitSnoc(calls, call);
    CommitSnoc(AfterCommit(calls), call);
  }

  lemma TransparentStep(r: Recorder, call: Call)
    requires r.wroteHeader || r.wire.statuses == []
    requires call.WriteHeader? ==> !r.wroteHeader || Decided(r.wire.statuses)
    ensures Apply(r, call).wire == Pass(r.wire, call)
  {
  }

  /** What net/http sends for the calls, read off from the front. */
  function SentFor(calls: seq<Call>): seq<int> {
    if calls == [] then []
    else match calls[0]
      case WriteHeader(status) => if Informational(status) then [status] + SentFor(calls[1..]) else [status]
      case Write(_) => [STATUS_OK]
      case _ => SentFor(calls[1..])
  }

  lemma {:induction false} SentForSnoc(calls: seq<Call>, call: Call)
    ensures SentFor(calls + [call]) == SentFor(calls) + if Decided(SentFor(calls)) then [] else SentFor([call])
  {
    if calls == [] {
      assert calls + [call] == [call];
    } else {
      assert (calls + [call])[1..] == calls[1..] + [call];
      SentForSnoc(calls[1..], call);
    }
  }

  lemma {:induction false} PlainSends(w: Wire, calls: seq<Call>)
    requires w.statuses == []
    ensures PassAll(w, calls).statuses == SentFor(calls)
  {
    if calls != [] {
      var init, last := calls[..|calls|-1], calls[|calls|-1];
      PlainSends(w, init);
      assert calls == init + [last];
      SentForSnoc(init, last);
    }
  }

  /** With the final 200 that net/http adds when there is none. */
  function Finished(statuses: seq<int>): seq<int> {
    if Decided(statuses) then statuses else statuses + [STATUS_OK]
  }

  lemma {:induction false} FinishedFirst(calls: seq<Call>)
    ensures Finished(SentFor(calls)) == match Commit(calls)
      case None => [STATUS_OK]
      case Some(call) =>
        if call.WriteHeader? && Informational(call.status) then [call.status] + Finished(SentFor(AfterCommit(calls)))
        else SentFor(calls)
    ensures Commit(calls).Some? && !(Commit(calls).value.WriteHeader? && Informational(Commit(calls).value.status)) ==>
      SentFor(calls) == [StatusOf(calls)]
  {
    if calls != [] && !Commits(calls[0]) {
      FinishedFirst(calls[1..]);
    }
  }

  lemma FinishedStatuses(calls: seq<Call>)
    ensures Finished(StatusesOf(calls)) == match Commit(calls)
      case None => [STATUS_OK]
      case Some(call) =>
        if call.WriteHeader? && Informational(call.status) then [call.status, STATUS_OK] else [StatusOf(calls)]
  {
    CommitIsFirst(calls);
  }

  /** What follows an informational status adds up to 200 exactly if no other status does. */
  lemma FinishesOk(calls: seq<Call>)
    ensures Finished(SentFor(calls)) == [STATUS_OK] <==>
      !(Commit(calls).Some? && Commit(calls).value.WriteHeader? && Commit(calls).value.status != STATUS_OK)
  {
    FinishedFirst(calls);
    CommitIsFirst(calls);
  }

  lemma StatusesAgreeIff(calls: seq<Call>)
    ensures Finished(StatusesOf(calls)) == Finished(SentFor(calls)) <==>
      (Swallows(calls) ==> Swallowed(calls) == STATUS_OK)
  {
    FinishedStatuses(calls);
    FinishedFirst(calls);
    if Commit(calls).Some? && Commit(calls).value.WriteHeader? && Informational(Commit(calls).value.status) {
      FinishesOk(AfterCommit(calls));
      var early, rest := Commit(calls).value.status, Finished(SentFor(AfterCommit(calls)));
      assert [early, STATUS_OK] == [early] + [STATUS_OK];
      assert ([early] + rest)[1..] == rest && ([early] + [STATUS_OK])[1..] == [STATUS_OK];
    }
  }

  /** One more call that is not dropped. */
  lemma SameWireStep(w: Wire, init: seq<Call>, last: Call)
    requires w.statuses == [] && !Swallows(init + [last])
    ensures !Swallows(init)
    ensures var r := ApplyAll(Around(w), init); Apply(r, last).wire == Pass(r.wire, last)
  {
    if Swallows(init) {
      SwallowsStays(init, last);
    }
    RecorderKeepsStatus(w, init);
    if last.WriteHeader? && Committed(init) && !Decided(StatusesOf(init)) {
      UndecidedSwallows(init, last.status);
    }
    TransparentStep(ApplyAll(Around(w), init), last);
  }

  lemma {:induction false} SameWire(w: Wire, calls: seq<Call>)
    requires w.statuses == [] && !Swallows(calls)
    ensures ApplyAll(Around(w), calls).wire == PassAll(w, calls)
    decreases |calls|
  {
    if calls != [] {
      var init, last := calls[..|calls|-1], calls[|calls|-1];
      assert calls == init + [last];
      SameWireStep(w, init, last);
      SameWire(w, init);
    }
  }

  /** The recorder is transparent: whatever the layers outside had done to the headers before, a
      handler behind it shows its client exactly what it would show without it, unless a status
      is dropped; and the client sees the same statuses exactly if none is, or only a 200. */
  lemma RecorderIsTransparent(w: Wire, calls: seq<Call>)
    requires w.statuses == []
    ensures !Swallows(calls) ==> ApplyAll(Around(w), calls).wire == PassAll(w, calls)
    ensures Finish(ApplyAll(Around(w), calls).wire).statuses == Finish(PassAll(w, calls)).statuses <==>
      (Swallows(calls) ==> Swallowed(calls) == STATUS_OK)
  {
    RecorderKeepsStatus(w, calls);
    PlainSends(w, calls);
    StatusesAgreeIff(calls);
    if !Swallows(calls) {
      SameWire(w, calls);
    }
  }

  /** It does happen: a handler announces its response and then answers. Its client is sent 200
      in place of the answer's status, and the announcement is recorded and stored as that of the
      response, even if the answer is an error that would not be stored. */
  lemma AnnouncementIsRecorded(w: Wire, early: int, status: int)
    requires w.statuses == [] && Informational(early) && !Informational(status)
    ensures var calls := [WriteHeader(early), WriteHeader(status)];
      && ApplyAll(Around(w), calls).status == early && ShouldCache(early)
      && Finish(ApplyAll(Around(w), calls).wire).statuses == [early, STATUS_OK]
      && Finish(PassAll(w, calls)).statuses == [early, status]
  {
    var calls := [WriteHeader(early), WriteHeader(status)];
    RecorderKeepsStatus(w, calls);
    PlainSends(w, calls);
    assert calls[1..] == [WriteHeader(status)] && calls[1..][1..] == [];
    assert calls[0] in calls && !WritesBytes(calls);
  }

  lemma {:induction false} UncommittedDefaults(calls: seq<Call>)
    requires !Committed(calls)
    ensures StatusOf(calls) == STATUS_OK && BytesOf(calls) == []
  {
    if calls != [] {
      assert calls[0] in calls;
      assert forall call <- calls[1..] :: call in calls;
      UncommittedDefaults(calls[1..]);
    }
  }

  /** The call is what makes the recorder let the final status through. */
  predicate Decides(before: seq<Call>, commit: Call) {
    !Decided(StatusesOf(before)) && Decided(StatusesOf(before + [commit]))
  }

  /** The recorder captures the header map when the handler returns, while the client saw
      it as the final status code committed it. Both agree exactly when no kept header was
      changed after that point. */
  lemma {:induction false} SentHeadersAreCapturedHeaders(before: seq<Call>, commit: Call, after: seq<Call>)
    requires Decides(before, commit)
    ensures var sent := ApplyAll(FRESH, before).wire.header;
      var end := ApplyAll(FRESH, before + [commit] + after);
      && end.wire.committed == sent
      && (Captured(end.wire.header) == Captured(sent) <==>
          forall name | name !in SKIPPED ::
            FirstValue(ValuesOf(before + [commit] + after, name)) == FirstValue(ValuesOf(before, name)))
  {
    var all := before + [commit] + after;
    CommittedStays(before, commit, after);
    RecorderIsFaithful(before);
    RecorderIsFaithful(all);
    var sent, end := ApplyAll(FRESH, before).wire.header, ApplyAll(FRESH, all).wire.header;
    CapturedIsFirstValues(sent, before);
    CapturedIsFirstValues(end, all);
    if Captured(sent) == Captured(end) {
      forall name | name !in SKIPPED
        ensures FirstValue(ValuesOf(all, name)) == FirstValue(ValuesOf(before, name))
      {
        assert name in Captured(sent) <==> name in Captured(end);
      }
    }
    if forall name | name !in SKIPPED :: FirstValue(ValuesOf(all, name)) == FirstValue(ValuesOf(before, name)) {
      assert Captured(sent).Keys == Captured(end).Keys;
      assert Captured(sent) == Captured(end);
    }
  }

  function FirstValue(values: Option<seq<string>>): Option<string> {
    if values.Some? && values.value != [] then Some(values.value[0]) else None
  }

  lemma CapturedIsFirstValues(header: Header, calls: seq<Call>)
    requires forall name :: ValuesOf(calls, name) == if name in header then Some(header[name]) else None
    ensures forall name | name !in SKIPPED ::
      FirstValue(ValuesOf(calls, name)) == if name in Captured(header) then Some(Captured(header)[name]) else None
  {
  }

  lemma CommitStep(r: Recorder, call: Call)
    requires !Decided(r.wire.statuses) && Decided(Apply(r, call).wire.statuses)
    ensures Apply(r, call).wire.committed == r.wire.header
      && Apply(r, call).wroteHeader == (r.wroteHeader || Commits(call))
  {
  }

  lemma CommitsNow(before: seq<Call>, commit: Call)
    requires Decides(before, commit)
    ensures var r := ApplyAll(FRESH, before + [commit]);
      r.wire.committed == ApplyAll(FRESH, before).wire.header && r.wroteHeader && Decided(r.wire.statuses)
  {
    assert Around(FRESH.wire) == FRESH;
    RecorderKeepsStatus(FRESH.wire, before);
    RecorderKeepsStatus(FRESH.wire, before + [commit]);
    ApplySnoc(FRESH, before, commit);
    CommitStep(ApplyAll(FRESH, before), commit);
  }

  /** Six names are never captured, nor one without a value; every other is, with its first value. */
  lemma CapturedNames(header: Header, name: string)
    ensures name in Captured(header) <==>
      && name in header && header[name] != []
      && name != "Date" && name != "X-Request-Id" && name != "X-Response-Time" && name != "Content-Length"
      && name != "Transfer-Encoding" && name != "Connection"
    ensures name in Captured(header) ==> Captured(header)[name] == header[name][0]
  {
  }

  lemma {:induction false} CommittedKept(r: Recorder, after: seq<Call>)
    requires r.wroteHeader && Decided(r.wire.statuses)
    ensures ApplyAll(r, after).wire.committed == r.wire.committed
    ensures ApplyAll(r, after).wroteHeader && Decided(ApplyAll(r, after).wire.statuses)
  {
    if after != [] {
      CommittedKept(r, after[..|after|-1]);
    }
  }

  lemma CommittedStays(before: seq<Call>, commit: Call, after: seq<Call>)
    requires Decides(before, commit)
    ensures ApplyAll(FRESH, before + [commit] + after).wire.committed == ApplyAll(FRESH, before).wire.header
  {
    CommitsNow(before, commit);
    ApplyAllConcat(FRESH, before + [commit], after);
    CommittedKept(ApplyAll(FRESH, before + [commit]), after);
  }

  /** Headers may indeed change after the commit: a handler that sets one after its first
      write has it replayed although its own client never received it. */
  lemma LateHeaderIsReplayedOnly()
    ensures var end := ApplyAll(FRESH, [Write([]), SetHeader("Etag", ["v1"])]);
      "Etag" in Captured(end.wire.header) && "Etag" !in end.wire.committed
  {
    var calls := [Write([]), SetHeader("Etag", ["v1"])];
    assert calls[..1] == [Write([])];
    assert calls[..1][..0] == [];
    assert ApplyAll(FRESH, calls[..1]) == Apply(FRESH, Write([]));
  }
}
