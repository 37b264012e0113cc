/** An error document on its way to the client: WriteError's two writes, through
    the whole chain to the wire. */
module ErrorDelivery {
  import opened Options
  import opened Response
  import opened RequestChain
  import ClientErrors

  /** writeErrorDocument: the status line, then the encoded objects. Encoding is a
      given function; it never gives the empty text. */
  function Writes(encode: seq<ClientErrors.ErrorObject> -> string, d: ClientErrors.Document): seq<Op> {
    [WriteHeader(d.status), Write(encode(d.objects))]
  }

  /** A handler that answers with WriteError and returns. */
  function Rejecting(
      fold: char -> char, encode: seq<ClientErrors.ErrorObject> -> string, err: ClientErrors.Err): Handler
  {
    Handler(Writes(encode, ClientErrors.Respond(fold, err)), Returned, None)
  }

  /** A final status of three digits that has a body. */
  predicate CarriesDocument(status: int) {
    ValidCode(status) && BodyAllowed(status)
  }

  lemma TwoWrites(status: int, body: string)
    requires body != ""
    ensures var d := Deliver(EMPTY_WIRE, [WriteHeader(status), Write(body)]);
      && d.panicked == !ValidCode(status)
      && ClientSees(d.wire, false) ==
           if !ValidCode(status) then Sight(200, [], "")
           else if Informational(status) then Sight(200, [status], body)
           else Sight(status, [], if BodyAllowed(status) then body else "")
  {
    var ops := [WriteHeader(status), Write(body)];
    assert ops[1..] == [Write(body)];
    if ValidCode(status) {
      var w := Send(EMPTY_WIRE, ops[0]).value;
      assert Deliver(w, ops[1..]) == Deliver(Send(w, Write(body)).value, []);
      assert "" + body == body && [] + [status] == [status];
    }
  }

  /** Nothing in the chain touches the two writes: the client sees what they put
      on the wire, also when a refused status makes the handler panic. */
  lemma ChainDelivers(h: Handler)
    requires h.ending.Returned? && h.declared.None? && h.ops != []
    ensures Serve(PLAIN, h).x.wire == Deliver(EMPTY_WIRE, h.ops).wire
  {
    RecorderIsTransparent(FRESH, h.ops);
    PanicWithoutOperations(Run(FRESH, h), h);
  }

  /** The client receives the document under its own status exactly when the
      errors do not share a non-zero status that cannot carry one. A shared
      informational status reaches it before an implied 200; one without a body
      loses the document; one that is no three-digit number gives an empty 200. */
  lemma DocumentArrivesExactlyWhen(
      fold: char -> char, encode: seq<ClientErrors.ErrorObject> -> string, err: ClientErrors.Err)
    requires encode(ClientErrors.Respond(fold, err).objects) != ""
    ensures var d := ClientErrors.Respond(fold, err);
      var seen := ClientSees(Serve(PLAIN, Rejecting(fold, encode, err)).x.wire, false);
      var statuses := ClientErrors.StatusesOf(ClientErrors.Topmost(err));
      && (seen == Sight(d.status, [], encode(d.objects))
          <==> statuses == [] || !ClientErrors.Shared(statuses) || statuses[0] == 0 || CarriesDocument(statuses[0]))
      && (Informational(d.status) ==> seen == Sight(200, [d.status], encode(d.objects)))
      && (ValidCode(d.status) && !Informational(d.status) && !BodyAllowed(d.status) ==> seen == Sight(d.status, [], ""))
      && (!ValidCode(d.status) ==> seen == Sight(200, [], ""))
  {
    var d := ClientErrors.Respond(fold, err);
    ChainDelivers(Rejecting(fold, encode, err));
    TwoWrites(d.status, encode(d.objects));
  }

  /** Errors that are all the client's own always reach it. */
  lemma ClientErrorsArrive(
      fold: char -> char, encode: seq<ClientErrors.ErrorObject> -> string, err: ClientErrors.Err)
    requires encode(ClientErrors.Respond(fold, err).objects) != ""
    requires forall c :: c in ClientErrors.Topmost(err) ==> ClientErrors.IsClientStatus(c.status)
    ensures var d := ClientErrors.Respond(fold, err);
      ClientSees(Serve(PLAIN, Rejecting(fold, encode, err)).x.wire, false) == Sight(d.status, [], encode(d.objects))
  {
    DocumentArrivesExactlyWhen(fold, encode, err);
    var found := ClientErrors.Topmost(err);
    assert found != [] ==> found[0] in found;
  }
}
