/** The objects behind Http.Recorder: the response writer and the recorder wrapped around
    it, updated in place call by call. */
module Recording {
  import opened Http

  class ResponseWriter {
    var header: Header
    var statuses: seq<int>
    var committed: Header
    var body: Bytes

    constructor ()
      ensures Snapshot() == FRESH.wire
    {
      header, statuses, committed, body := map[], [], map[], [];
    }

    function Snapshot(): Wire
      reads this
    {
      Wire(header, statuses, committed, body)
    }

    method WriteHeader(status: int)
      modifies this
      ensures Snapshot() == WireStatus(old(Snapshot()), status)
    {
      if Decided(statuses) {
        return;
      }
      if !Informational(status) {
        committed := header;
      }
      statuses := statuses + [status];
    }

    method Write(bytes: Bytes)
      modifies this
      ensures Snapshot() == WireBytes(old(Snapshot()), bytes)
    {
      if !Decided(statuses) {
        WriteHeader(STATUS_OK);
      }
      body := body + bytes;
    }

    /** Runs a handler's calls against the writer itself. */
    method Serve(calls: seq<Call>)
      modifies this
      ensures Snapshot() == PassAll(old(Snapshot()), calls)
    {
      for i := 0 to |calls|
        invariant Snapshot() == PassAll(old(Snapshot()), calls[..i])
      {
        assert calls[..i+1][..i] == calls[..i];
        match calls[i] {
          case SetHeader(name, values) => header := header[name := values];
          case DelHeader(name) => header := header - {name};
          case WriteHeader(status) => WriteHeader(status);
          case Write(bytes) => Write(bytes);
        }
      }
      assert calls[..|calls|] == calls;
    }
  }

  class ResponseRecorder {
    const w: ResponseWriter
    var status: int
    var body: Bytes
    var wroteHeader: bool

    constructor (w: ResponseWriter)
      ensures this.w == w && w.Snapshot() == old(w.Snapshot())
      ensures Snapshot() == Recorder(w.Snapshot(), STATUS_OK, false, [])
    {
      this.w := w;
      status, body, wroteHeader := STATUS_OK, [], false;
    }

    function Snapshot(): Recorder
      reads this, w
    {
      Recorder(w.Snapshot(), status, wroteHeader, body)
    }

    method WriteHeader(status: int)
      modifies this, w
      ensures Snapshot() == RecordStatus(old(Snapshot()), status)
    {
      if wroteHeader {
        return;
      }
      this.status := status;
      wroteHeader := true;
      w.WriteHeader(status);
    }

    method Write(bytes: Bytes)
      modifies this, w
      ensures Snapshot() == RecordBytes(old(Snapshot()), bytes)
    {
      if !wroteHeader {
        WriteHeader(STATUS_OK);
      }
      body := body + bytes;
      w.Write(bytes);
    }

    /** Runs a handler's calls against the recorder. */
    method Serve(calls: seq<Call>)
      modifies this, w
      ensures Snapshot() == ApplyAll(old(Snapshot()), calls)
    {
      for i := 0 to |calls|
        invariant Snapshot() == ApplyAll(old(Snapshot()), calls[..i])
      {
        assert calls[..i+1] == calls[..i] + [calls[i]];
        ApplySnoc(old(Snapshot()), calls[..i], calls[i]);
        match calls[i] {
          case SetHeader(name, values) => w.header := w.header[name := values];
          case DelHeader(name) => w.header := w.header - {name};
          case WriteHeader(status) => WriteHeader(status);
          case Write(bytes) => Write(bytes);
        }
      }
      assert calls[..|calls|] == calls;
    }

    method CapturedHeaders() returns (out: map<string, string>)
      ensures out == Captured(w.header)
    {
      out := map[];
      var todo := w.header.Keys;
      while todo != {}
        invariant todo <= w.header.Keys
        invariant out == map name | name in Captured(w.header) && name !in todo :: Captured(w.header)[name]
      {
        var name :| name in todo;
        todo := todo - {name};
        if name in SKIPPED {
          continue;
        }
        if |w.header[name]| > 0 {
          out := out[name := w.header[name][0]];
        }
      }
    }
  }
}
