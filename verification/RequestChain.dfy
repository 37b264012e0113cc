/** One request through the chain NewMux builds, from request logging inwards:
    logging, panic recovery, the in-flight limiter, the body limit, a handler. */
module RequestChain {
  import opened Options
  import opened Response
  import opened Decimal
  import opened ClientErrors

  /** How a handler ends: normally, with a panic, or with the panic value that
      abandons a response on purpose (http.ErrAbortHandler, also wrapped). */
  datatype Ending = Returned | Panicked | Aborted

  /** An arbitrary handler, as the operations it performs, how it ends, and the
      Content-Length it has set by the time the status is committed, if any. An
      operation that panics ends it early. */
  datatype Handler = Handler(ops: seq<Op>, ending: Ending, declared: Option<nat>)

  /** What the inner middlewares need to know: whether the limiter has a slot,
      the configured body limit, and the declared Content-Length. */
  datatype Request = Request(admitted: bool, bodyLimit: int, contentLength: int)

  datatype Level = Info | Warn | Error

  datatype Entry = PanicEntry | RequestEntry(status: int, level: Level)

  function LevelForStatus(status: int): Level {
    if status >= 500 then Error else if status >= 400 then Warn else Info
  }

  function Member(name: string, value: string): string {
    "\"" + name + "\":\"" + value + "\""
  }

  /** The document of one error object that has neither detail nor pointer. */
  function ErrorText(status: int, code: string): string {
    "{\"errors\":[{" + Member("status", FormatInt(status)) + "," + Member("code", code) + ","
      + Member("title", ErrorTitle(code)) + "}]}\n"
  }

  /** writeJSONError, as the operations it performs on the writer it is given. */
  function WriteJSONError(status: int, code: string): seq<Op> {
    [WriteHeader(status), Write(ErrorText(status, code))]
  }

  const INTERNAL_DOCUMENT := ErrorText(500, "internal")
  const INTERNAL_ERROR := WriteJSONError(500, "internal")
  const OVERLOADED := WriteJSONError(503, "overloaded")
  const PAYLOAD_TOO_LARGE := WriteJSONError(413, "payload_too_large")

  /** What runs inside panic recovery: the limiter's or the body limit's refusal,
      or the handler. */
  function Inner(req: Request, h: Handler): Handler {
    if !req.admitted then Handler(OVERLOADED, Returned, None)
    else if req.bodyLimit > 0 && req.contentLength > req.bodyLimit then Handler(PAYLOAD_TOO_LARGE, Returned, None)
    else h
  }

  datatype Outcome = Outcome(x: Exchange, ending: Ending)

  function Run(x: Exchange, h: Handler): Outcome {
    var p := Play(Declaring(x, h.declared), h.ops);
    Outcome(p.x, if p.panicked then Panicked else h.ending)
  }

  datatype Served = Served(x: Exchange, log: seq<Entry>, aborted: bool)

  function Recovered(o: Outcome): Served {
    match o.ending
    case Returned => Served(o.x, [], false)
    case Aborted => Served(o.x, [], true)
    case Panicked =>
      Served(if o.x.record.written then o.x else Play(o.x, INTERNAL_ERROR).x, [PanicEntry], false)
  }

  function Logged(s: Served): Served {
    if s.aborted then s
    else s.(log := s.log + [RequestEntry(s.x.record.status, LevelForStatus(s.x.record.status))])
  }

  function Serve(req: Request, h: Handler): Served {
    Logged(Recovered(Run(FRESH, Inner(req, h))))
  }

  datatype AdminServed = AdminServed(wire: Wire, log: seq<Entry>, aborted: bool)

  /** The administrative listener's chain: no limiter, no request entry, and no
      recorder in front of the wire, so recovery logs a panic and always writes. */
  function ServeAdmin(req: Request, h: Handler): AdminServed {
    var i := Inner(req.(admitted := true), h);
    var d := Deliver(Start(i.declared).wire, i.ops);
    if d.panicked || i.ending.Panicked?
    then AdminServed(Deliver(d.wire, INTERNAL_ERROR).wire, [PanicEntry], false)
    else AdminServed(d.wire, [], i.ending.Aborted?)
  }

  // ---- the theorems ----

  ghost predicate Says(text: string, name: string, value: string) {
    exists before, after :: text == before + Member(name, value) + after
  }

  lemma SaysInTheMiddle(before: string, name: string, value: string, after: string)
    ensures Says(before + Member(name, value) + after, name, value)
  {}

  lemma Regroup(a: string, b: string, c: string, d: string, e: string)
    ensures a + b + c + d + e == a + b + (c + d + e)
    ensures a + b + c + d + e == (a + b + c) + d + e
  {}

  /** An error document says its status, its code and the code's title. */
  lemma ErrorTextSays(status: int, code: string)
    ensures Says(ErrorText(status, code), "status", FormatInt(status))
    ensures Says(ErrorText(status, code), "code", code)
    ensures Says(ErrorText(status, code), "title", ErrorTitle(code))
  {
    TextSays("{\"errors\":[{", FormatInt(status), code, ErrorTitle(code), "}]}\n");
  }

  lemma TextSays(open: string, status: string, code: string, title: string, end: string)
    ensures var text := open + Member("status", status) + "," + Member("code", code) + ","
                        + Member("title", title) + end;
      Says(text, "status", status) && Says(text, "code", code) && Says(text, "title", title)
  {
    var s, c, t := Member("status", status), Member("code", code), Member("title", title);
    Regroup(open + s + ",", c, ",", t, end);
    Regroup(open, s, ",", c, "," + t + end);
    SaysInTheMiddle(open + s + "," + c + ",", "title", title, end);
    SaysInTheMiddle(open + s + ",", "code", code, "," + t + end);
    SaysInTheMiddle(open, "status", status, "," + c + ("," + t + end));
  }

  /** The wire after recovery has written on it, begun or not. */
  function WithInternalError(w: Wire): Wire {
    Carry(if w.status.Some? then w.(superfluous := w.superfluous + 1) else Commit(w, 500), INTERNAL_DOCUMENT)
  }

  lemma InternalErrorDelivered(w: Wire)
    ensures Deliver(w, INTERNAL_ERROR) == Delivered(WithInternalError(w), false)
  {
    var v := Send(w, INTERNAL_ERROR[0]).value;
    assert INTERNAL_ERROR[1..] == [INTERNAL_ERROR[1]];
    assert Deliver(v, INTERNAL_ERROR[1..]) == Deliver(Send(v, INTERNAL_ERROR[1]).value, []);
  }

  lemma InternalErrorPlayed(declared: Option<nat>)
    ensures var x := Start(declared);
      Play(x, INTERNAL_ERROR) == Played(Exchange(Record(500, true), WithInternalError(x.wire)), false)
  {
    RecorderIsTransparent(Start(declared), INTERNAL_ERROR);
    InternalErrorDelivered(Start(declared).wire);
    FirstOperationIsRecorded(declared, INTERNAL_ERROR);
  }

  /** Only a handler that has performed no operation leaves the exchange fresh. */
  lemma PanicWithoutOperations(o: Outcome, h: Handler)
    requires o == Run(FRESH, h)
    ensures !o.x.record.written <==> h.ops == []
    ensures h.ops == [] ==> o.x == Start(h.declared)
  {
    FirstOperationIsRecorded(h.declared, h.ops);
  }

  /** Every request that is not aborted leaves exactly one request entry, last,
      after a panic entry if it panicked; an aborted one leaves no entry, and
      its response is as the handler left it. */
  lemma OneEntryPerRequest(req: Request, h: Handler)
    ensures var o := Run(FRESH, Inner(req, h)); var s := Serve(req, h);
      && (s.aborted <==> o.ending.Aborted?)
      && (s.aborted ==> s.log == [] && s.x == o.x)
      && (!s.aborted ==> |s.log| >= 1 && s.log[|s.log| - 1].RequestEntry?
                         && s.log[..|s.log| - 1] == if o.ending.Panicked? then [PanicEntry] else [])
  {}

  /** The request entry carries the status the client saw, at that status's
      level, exactly when nothing was written through the recorder or the first
      operation commits the response; a refused request always qualifies. */
  lemma EntryTellsTheWire(req: Request, h: Handler)
    requires !Serve(req, h).aborted
    ensures var s := Serve(req, h);
      var entry := s.log[|s.log| - 1];
      entry == RequestEntry(FinalStatus(s.x.wire), LevelForStatus(FinalStatus(s.x.wire)))
      <==> Inner(req, h).ops == [] || Commits(Inner(req, h).ops[0])
  {
    var i := Inner(req, h);
    RecorderAgreesExactlyWhen(i.declared, i.ops);
    PanicWithoutOperations(Run(FRESH, i), i);
    InternalErrorPlayed(i.declared);
    if i.ops != [] && !Commits(i.ops[0]) {
      var p := Step(Start(i.declared), i.ops[0]);
      if !p.panicked {
        MisrecordedStaysWrong(p.x, i.ops[1..]);
      }
    }
  }

  /** A panic before any operation becomes a 500 on the wire and in the entry,
      with the error document unless the handler had declared a shorter length. */
  lemma PanicBeforeWriting(req: Request, h: Handler)
    requires Inner(req, h).ops == [] && Inner(req, h).ending.Panicked?
    ensures var w := Serve(req, h).x.wire; var declared := Inner(req, h).declared;
      && w.status == Some(500) && w.interim == [] && w.superfluous == 0
      && w.body == if declared.Some? && declared.value < |INTERNAL_DOCUMENT| then "" else INTERNAL_DOCUMENT
    ensures Serve(req, h).log == [PanicEntry, RequestEntry(500, Error)]
  {
    InternalErrorPlayed(Inner(req, h).declared);
    assert "" + INTERNAL_DOCUMENT == INTERNAL_DOCUMENT;
  }

  /** A panic after an operation adds nothing to the response. */
  lemma PanicAfterWriting(req: Request, h: Handler)
    requires Run(FRESH, Inner(req, h)).ending.Panicked? && Inner(req, h).ops != []
    ensures Serve(req, h).x == Play(Start(Inner(req, h).declared), Inner(req, h).ops).x
    ensures |Serve(req, h).log| == 2 && Serve(req, h).log[0] == PanicEntry
    ensures Commits(Inner(req, h).ops[0]) ==>
      var status := FinalStatus(Serve(req, h).x.wire);
      Serve(req, h).log[1] == RequestEntry(status, LevelForStatus(status))
  {
    PanicWithoutOperations(Run(FRESH, Inner(req, h)), Inner(req, h));
    RecorderAgreesExactlyWhen(Inner(req, h).declared, Inner(req, h).ops);
  }

  /** A panic while the wire is still uncommitted reaches the client as a 500
      exactly when the handler had performed no operation. Otherwise the
      recorder claims a response has begun, and the client gets an implied 200. */
  lemma UncommittedPanicIs500ExactlyWhen(req: Request, h: Handler)
    requires Run(FRESH, Inner(req, h)).ending.Panicked?
    requires Run(FRESH, Inner(req, h)).x.wire.status.None?
    ensures FinalStatus(Serve(req, h).x.wire) == 500 <==> Inner(req, h).ops == []
    ensures Inner(req, h).ops != [] ==> FinalStatus(Serve(req, h).x.wire) == 200
  {
    PanicWithoutOperations(Run(FRESH, Inner(req, h)), Inner(req, h));
    InternalErrorPlayed(Inner(req, h).declared);
  }

  /** To a handler that panics the two listeners give the client different
      answers exactly when it had performed an operation and either nothing was
      committed yet (200 against 500), or net/http takes the error document after
      what had been written and the request is no HEAD. */
  lemma ListenersDifferExactlyWhen(req: Request, h: Handler, head: bool)
    requires req.admitted && Run(FRESH, Inner(req, h)).ending.Panicked?
    ensures var begun := Run(FRESH, Inner(req, h)).x.wire;
      ClientSees(ServeAdmin(req, h).wire, head) != ClientSees(Serve(req, h).x.wire, head)
      <==> Inner(req, h).ops != []
           && (begun.status.None? || (!head && Takes(begun, INTERNAL_DOCUMENT)))
    ensures var begun := Run(FRESH, Inner(req, h)).x.wire;
      ServeAdmin(req, h) == AdminServed(WithInternalError(begun), [PanicEntry], false)
  {
    var i := Inner(req, h);
    var begun := Run(FRESH, i).x.wire;
    assert req.(admitted := true) == req;
    RecorderIsTransparent(Start(i.declared), i.ops);
    PanicWithoutOperations(Run(FRESH, i), i);
    InternalErrorDelivered(begun);
    InternalErrorPlayed(i.declared);
    assert |begun.body + INTERNAL_DOCUMENT| > |begun.body|;
  }

  /** A request nothing refuses. */
  const PLAIN := Request(true, 0, 0)

  predicate AnswersAlike(h: Handler, head: bool) {
    ClientSees(ServeAdmin(PLAIN, h).wire, head) == ClientSees(Serve(PLAIN, h).x.wire, head)
  }

  lemma AfterOneOperation(op: Op, declared: Option<nat>, head: bool)
    requires Commits(op)
    ensures AnswersAlike(Handler([op], Panicked, declared), head)
            <==> head || !Takes(Step(Start(declared), op).x.wire, INTERNAL_DOCUMENT)
  {
    var h := Handler([op], Panicked, declared);
    var x := Step(Start(declared), op).x;
    assert [op][1..] == [];
    assert Play(Start(declared), [op]) == Play(x, []);
    ListenersDifferExactlyWhen(PLAIN, h, head);
  }

  /** Where net/http takes no body the two agree although the handler had
      written: after 204, after 304, and once a declared length is used up. After
      200 they differ. */
  lemma ListenersAgreeWithoutRoom(head: bool)
    ensures AnswersAlike(Handler([WriteHeader(204)], Panicked, None), head)
    ensures AnswersAlike(Handler([WriteHeader(304)], Panicked, None), head)
    ensures AnswersAlike(Handler([Write("ok")], Panicked, Some(2)), head)
    ensures !AnswersAlike(Handler([Write("ok")], Panicked, None), false)
  {
    AfterOneOperation(WriteHeader(204), None, head);
    AfterOneOperation(WriteHeader(304), None, head);
    AfterOneOperation(Write("ok"), Some(2), head);
    AfterOneOperation(Write("ok"), None, false);
  }

  /** Without a panic the two listeners' chains deliver the same response. */
  lemma ListenersAgreeOtherwise(req: Request, h: Handler)
    requires req.admitted && !Run(FRESH, Inner(req, h)).ending.Panicked?
    ensures ServeAdmin(req, h).wire == Serve(req, h).x.wire
    ensures ServeAdmin(req, h).aborted == Serve(req, h).aborted && ServeAdmin(req, h).log == []
  {
    assert req.(admitted := true) == req;
    RecorderIsTransparent(Start(Inner(req, h).declared), Inner(req, h).ops);
  }

  /** The failing cases are real: a handler that passes WriteHeader a number
      that is no status panics into an implied 200 logged at info with that
      number, and early hints before a 404 are logged as the 404's status. */
  lemma RecorderCanDisagree()
    ensures var s := Serve(PLAIN, Handler([WriteHeader(0)], Returned, None));
      FinalStatus(s.x.wire) == 200 && s.log == [PanicEntry, RequestEntry(0, Info)]
    ensures var s := Serve(PLAIN, Handler([WriteHeader(103), WriteHeader(404)], Returned, None));
      FinalStatus(s.x.wire) == 404 && s.log == [RequestEntry(103, Info)]
  {
    var ops := [WriteHeader(103), WriteHeader(404)];
    var x := Step(FRESH, ops[0]).x;
    assert ops[1..] == [ops[1]];
    assert Play(x, ops[1..]) == Play(Step(x, ops[1]).x, []);
  }

  /** What the chain itself answers: a shed request gets 503 and a body declared
      above a positive limit 413, each with its error document, logged at its
      level; any other request is the handler's. */
  lemma RefusalsTell(req: Request, h: Handler, head: bool)
    ensures !req.admitted ==>
      && Serve(req, h).log == [RequestEntry(503, Error)] && !Serve(req, h).aborted
      && ClientSees(Serve(req, h).x.wire, head) == Sight(503, [], if head then "" else ErrorText(503, "overloaded"))
    ensures req.admitted && 0 < req.bodyLimit < req.contentLength ==>
      && Serve(req, h).log == [RequestEntry(413, Warn)] && !Serve(req, h).aborted
      && ClientSees(Serve(req, h).x.wire, head)
         == Sight(413, [], if head then "" else ErrorText(413, "payload_too_large"))
    ensures req.admitted && !(0 < req.bodyLimit < req.contentLength) ==> Serve(req, h) == Serve(PLAIN, h)
  {
    ShortAnswer(OVERLOADED);
    ShortAnswer(PAYLOAD_TOO_LARGE);
  }

  lemma ShortAnswer(ops: seq<Op>)
    requires |ops| == 2 && ops[0].WriteHeader? && ops[1].Write? && ops[1].data != ""
    requires Commits(ops[0]) && BodyAllowed(ops[0].code)
    ensures var p := Play(FRESH, ops);
      && !p.panicked && p.x.record == Record(ops[0].code, true)
      && p.x.wire.status == Some(ops[0].code) && p.x.wire.interim == [] && p.x.wire.body == ops[1].data
  {
    assert ops[1..] == [ops[1]];
    var x := Step(FRESH, ops[0]).x;
    assert Play(x, ops[1..]) == Play(Step(x, ops[1]).x, []);
    assert "" + ops[1].data == ops[1].data;
  }

  /** The administrative chain has no limiter to shed a request. */
  lemma AdminShedsNothing(req: Request, h: Handler)
    ensures ServeAdmin(req, h) == ServeAdmin(req.(admitted := true), h)
  {}

  /** A response that begins with its final status is logged with that status: at
      error level from 500 on, at warn level from 400 on, at info level below. */
  lemma CommittedStatusIsLogged(h: Handler)
    requires h.ops != [] && Commits(h.ops[0]) && !h.ending.Aborted?
    ensures Serve(PLAIN, h).log != []
    ensures var entry := Serve(PLAIN, h).log[|Serve(PLAIN, h).log| - 1];
      var status := if h.ops[0].WriteHeader? then h.ops[0].code else 200;
      && entry.RequestEntry? && entry.status == status
      && (entry.level.Error? <==> status >= 500) && (entry.level.Warn? <==> 400 <= status <= 499)
  {
    FirstOperationIsRecorded(h.declared, h.ops);
    RecorderAgreesExactlyWhen(h.declared, h.ops);
  }

  /** A handler that panics before writing, having declared a length the error
      document does not fit in, leaves the client a 500 without a body. */
  lemma ShortLengthDropsDocument()
    ensures ClientSees(Serve(PLAIN, Handler([], Panicked, Some(2))).x.wire, false) == Sight(500, [], "")
  {
    PanicBeforeWriting(PLAIN, Handler([], Panicked, Some(2)));
  }

  /** The middlewares as code, sharing one logger. */
  class Chain {
    var log: seq<Entry>

    constructor ()
      ensures log == []
    {
      log := [];
    }

    /** The limiter, the body limit and the handler. */
    method ServeInner(w: StatusRecorder, req: Request, h: Handler) returns (ending: Ending)
      modifies w, w.wire
      ensures Outcome(w.View(), ending) == Run(old(w.View()), Inner(req, h))
    {
      var panicked;
      if !req.admitted {
        panicked := w.Perform(OVERLOADED);
        ending := if panicked then Panicked else Returned;
      } else if req.bodyLimit > 0 && req.contentLength > req.bodyLimit {
        panicked := w.Perform(PAYLOAD_TOO_LARGE);
        ending := if panicked then Panicked else Returned;
      } else {
        if h.declared.Some? {
          w.wire.Declare(h.declared.value);
        }
        panicked := w.Perform(h.ops);
        ending := if panicked then Panicked else h.ending;
      }
    }

    /** withPanicRecovery; propagating means the abort panic goes on outwards. */
    method ServeRecovered(w: StatusRecorder, req: Request, h: Handler) returns (propagating: bool)
      modifies this, w, w.wire
      ensures var s := Recovered(Run(old(w.View()), Inner(req, h)));
        w.View() == s.x && log == old(log) + s.log && propagating == s.aborted
    {
      var ending := ServeInner(w, req, h);
      match ending {
        case Returned =>
          propagating := false;
        case Aborted =>
          propagating := true;
        case Panicked =>
          propagating := false;
          log := log + [PanicEntry];
          var begun := w.Written();
          if !begun {
            var _ := w.Perform(INTERNAL_ERROR);
          }
      }
    }

    /** withRequestLogging, which builds the recorder every layer inside uses. */
    method ServeHTTP(wire: ResponseWriter, req: Request, h: Handler) returns (propagating: bool)
      requires wire.View() == EMPTY_WIRE
      modifies this, wire
      ensures wire.View() == Serve(req, h).x.wire
      ensures log == old(log) + Serve(req, h).log
      ensures propagating == Serve(req, h).aborted
    {
      var recorder := new StatusRecorder(wire);
      propagating := ServeRecovered(recorder, req, h);
      if !propagating {
        log := log + [RequestEntry(recorder.status, LevelForStatus(recorder.status))];
      }
    }

    /** The administrative chain: withPanicRecovery over a writer that is no
        recorder, with the body limit inside. */
    method ServeAdminHTTP(wire: ResponseWriter, req: Request, h: Handler) returns (propagating: bool)
      requires wire.View() == EMPTY_WIRE
      modifies this, wire
      ensures var s := ServeAdmin(req, h);
        wire.View() == s.wire && log == old(log) + s.log && propagating == s.aborted
    {
      var panicked;
      var ending := Returned;
      if req.bodyLimit > 0 && req.contentLength > req.bodyLimit {
        panicked := wire.Perform(PAYLOAD_TOO_LARGE);
      } else {
        if h.declared.Some? {
          wire.Declare(h.declared.value);
        }
        panicked := wire.Perform(h.ops);
        ending := h.ending;
      }
      propagating := false;
      if panicked || ending.Panicked? {
        log := log + [PanicEntry];
        var _ := wire.Perform(INTERNAL_ERROR);
      } else if ending.Aborted? {
        propagating := true;
      }
    }
  }
}
