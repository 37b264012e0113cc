/** Error responses: the walk over an error tree and the document WriteError
    sends (internal/server/json.go), and that document's status and objects
    (internal/server/errors.go). */
module ClientErrors {
  import opened Options
  import opened Decimal

  /** An error value by its unwrap shape: a nil error, a ClientError with its
      cause, a wrapper of one error, a join of several, or a leaf. */
  datatype Err =
    | Nil
    | Client(status: int, code: string, message: string, pointer: string, cause: Err)
    | Wrap(text: string, inner: Err)
    | Join(parts: seq<Err>)
    | Plain(text: string)

  type ClientError = e: Err | e.Client? witness Client(0, "", "", "", Nil)

  // ---- collecting ----

  function Topmost(e: Err): seq<ClientError>
    decreases e, 0
  {
    match e
    case Nil => []
    case Client(_, _, _, _, _) => [e]
    case Wrap(_, inner) => Topmost(inner)
    case Join(parts) => TopmostOfAll(parts)
    case Plain(_) => []
  }

  function TopmostOfAll(es: seq<Err>): seq<ClientError>
    decreases es, 1
  {
    if es == [] then [] else Topmost(es[0]) + TopmostOfAll(es[1..])
  }

  /** The accumulator adds the topmost client errors, left to right. */
  method AppendClientErrors(found: seq<ClientError>, err: Err) returns (r: seq<ClientError>)
    ensures r == found + Topmost(err)
    decreases err
  {
    match err
    case Nil => r := found;
    case Client(_, _, _, _, _) => r := found + [err];
    case Wrap(_, inner) => r := AppendClientErrors(found, inner);
    case Plain(_) => r := found;
    case Join(parts) =>
      r := found;
      var i := 0;
      while i < |parts|
        invariant 0 <= i <= |parts|
        invariant r + TopmostOfAll(parts[i..]) == found + TopmostOfAll(parts)
      {
        assert parts[i..][0] == parts[i] && parts[i..][1..] == parts[i + 1..];
        r := AppendClientErrors(r, parts[i]);
        i := i + 1;
      }
  }

  /** A client error found anywhere in a tree, causes included, and whether some
      client error lies above it. */
  datatype Sighting = Sighting(node: ClientError, shadowed: bool)

  /** Every client error of a tree in pre-order. */
  function Sightings(e: Err, shadowed: bool): seq<Sighting>
    decreases e, 0
  {
    match e
    case Nil => []
    case Client(_, _, _, _, cause) => [Sighting(e, shadowed)] + Sightings(cause, true)
    case Wrap(_, inner) => Sightings(inner, shadowed)
    case Join(parts) => SightingsOfAll(parts, shadowed)
    case Plain(_) => []
  }

  function SightingsOfAll(es: seq<Err>, shadowed: bool): seq<Sighting>
    decreases es, 1
  {
    if es == [] then [] else Sightings(es[0], shadowed) + SightingsOfAll(es[1..], shadowed)
  }

  function InTheOpen(ss: seq<Sighting>): seq<ClientError> {
    if ss == [] then [] else (if ss[0].shadowed then [] else [ss[0].node]) + InTheOpen(ss[1..])
  }

  lemma {:induction false} InTheOpenOfConcat(a: seq<Sighting>, b: seq<Sighting>)
    ensures InTheOpen(a + b) == InTheOpen(a) + InTheOpen(b)
  {
    if a == [] {
      assert a + b == b;
    } else {
      assert (a + b)[0] == a[0] && (a + b)[1..] == a[1..] + b;
      InTheOpenOfConcat(a[1..], b);
    }
  }

  /** The collected errors are exactly the client errors of the whole tree that
      are not, however deeply, the cause of another, in the tree's order. */
  lemma {:induction false} TopmostAreInTheOpen(e: Err, shadowed: bool)
    ensures InTheOpen(Sightings(e, shadowed)) == if shadowed then [] else Topmost(e)
    decreases e, 0
  {
    match e
    case Nil =>
    case Plain(_) =>
    case Wrap(_, inner) => TopmostAreInTheOpen(inner, shadowed);
    case Join(parts) => AllTopmostAreInTheOpen(parts, shadowed);
    case Client(_, _, _, _, cause) =>
      TopmostAreInTheOpen(cause, true);
      InTheOpenOfConcat([Sighting(e, shadowed)], Sightings(cause, true));
      assert [Sighting(e, shadowed)][1..] == [];
  }

  lemma {:induction false} AllTopmostAreInTheOpen(es: seq<Err>, shadowed: bool)
    ensures InTheOpen(SightingsOfAll(es, shadowed)) == if shadowed then [] else TopmostOfAll(es)
    decreases es, 1
  {
    if es != [] {
      TopmostAreInTheOpen(es[0], shadowed);
      AllTopmostAreInTheOpen(es[1..], shadowed);
      InTheOpenOfConcat(Sightings(es[0], shadowed), SightingsOfAll(es[1..], shadowed));
    }
  }

  // ---- the document's status ----

  function StatusesOf(errs: seq<ClientError>): seq<int> {
    seq(|errs|, i requires 0 <= i < |errs| => errs[i].status)
  }

  predicate Shared(statuses: seq<int>) {
    forall i :: 0 <= i < |statuses| ==> statuses[i] == statuses[0]
  }

  predicate IsClientStatus(status: int) {
    400 <= status < 500
  }

  /** The rule without a sentinel: the shared status, if there is one and it is
      not zero; else 400 when all are client errors; else 500. */
  function SharedOrGeneral(statuses: seq<int>): int {
    if statuses == [] then 500
    else if Shared(statuses) && statuses[0] != 0 then statuses[0]
    else if forall i :: 0 <= i < |statuses| ==> IsClientStatus(statuses[i]) then 400
    else 500
  }

  method DocumentStatus(objects: seq<ClientError>) returns (status: int)
    ensures status == SharedOrGeneral(StatusesOf(objects))
  {
    ghost var all := StatusesOf(objects);
    if |objects| == 0 {
      return 500;
    }
    status := objects[0].status;
    var i := 0;
    while i < |objects|
      invariant 0 <= i <= |objects|
      invariant status == all[0] && forall j :: 0 <= j < i ==> all[j] == all[0]
    {
      if objects[i].status != status {
        assert all[i] != all[0];
        status := 0;
        break;
      }
      i := i + 1;
    }
    if status != 0 {
      return status;
    }
    i := 0;
    while i < |objects|
      invariant 0 <= i <= |objects|
      invariant forall j :: 0 <= j < i ==> IsClientStatus(all[j])
    {
      if objects[i].status < 400 || objects[i].status >= 500 {
        assert !IsClientStatus(all[i]);
        return 500;
      }
      i := i + 1;
    }
    status := 400;
  }

  /** The client is told it is at fault exactly when every error is its own. */
  lemma BlamesClientExactlyWhen(statuses: seq<int>)
    ensures IsClientStatus(SharedOrGeneral(statuses)) <==>
            statuses != [] && forall i :: 0 <= i < |statuses| ==> IsClientStatus(statuses[i])
  {
    if statuses != [] && Shared(statuses) {
      assert statuses[0] == 0 ==> !IsClientStatus(statuses[0]);
    }
  }

  /** Neither order nor repetition matters: only which statuses occur. */
  lemma OnlyTheSetOfStatusesMatters(xs: seq<int>, ys: seq<int>)
    requires forall s :: s in xs <==> s in ys
    ensures SharedOrGeneral(xs) == SharedOrGeneral(ys)
  {
    SameStatuses(xs, ys);
    SameStatuses(ys, xs);
  }

  lemma SameStatuses(xs: seq<int>, ys: seq<int>)
    requires forall s :: s in xs <==> s in ys
    ensures xs == [] ==> ys == []
    ensures xs != [] && ys != [] && Shared(xs) ==> Shared(ys) && xs[0] == ys[0]
    ensures (forall i :: 0 <= i < |xs| ==> IsClientStatus(xs[i])) ==>
            forall i :: 0 <= i < |ys| ==> IsClientStatus(ys[i])
  {
    forall i | 0 <= i < |ys|
      ensures exists j :: 0 <= j < |xs| && xs[j] == ys[i]
    {
      var s := ys[i];
      assert s in ys;
      assert s in xs;
    }
    if ys != [] {
      assert ys[0] in ys;
    }
  }

  ghost predicate Two(statuses: seq<int>) {
    exists i, j :: 0 <= i < j < |statuses| && statuses[i] != statuses[j]
  }

  /** The status in terms of which statuses occur: one that every error has, unless
      it is zero, is kept; otherwise 400 for the client's own errors alone, and 500
      as soon as one is not, or when there is none. */
  lemma StatusTells(statuses: seq<int>, status: int)
    ensures status in statuses && (forall s :: s in statuses ==> s == status) && status != 0 ==>
      SharedOrGeneral(statuses) == status
    ensures Two(statuses) && (forall s :: s in statuses ==> 400 <= s <= 499) ==> SharedOrGeneral(statuses) == 400
    ensures Two(statuses) && status in statuses && !(400 <= status <= 499) ==> SharedOrGeneral(statuses) == 500
    ensures (forall s :: s in statuses ==> s == 0) ==> SharedOrGeneral(statuses) == 500
  {
    assert forall i :: 0 <= i < |statuses| ==> statuses[i] in statuses;
  }

  // ---- the document ----

  datatype ErrorObject = ErrorObject(
    status: string, code: string, title: string, detail: string, source: Option<string>)

  datatype Document = Document(status: int, objects: seq<ErrorObject>)

  const ERROR_TITLES: map<string, string> := map[
    "internal" := "Internal server error",
    "payload_too_large" := "Request body too large",
    "overloaded" := "Server overloaded",
    "invalid_body" := "Invalid request body",
    "unsupported_media_type" := "Unsupported media type"]

  function ErrorTitle(code: string): string {
    if code in ERROR_TITLES then ERROR_TITLES[code] else code
  }

  /** The titles of the codes in use; any other code is its own title. */
  lemma TitlesInUse(code: string)
    ensures ErrorTitle("internal") == "Internal server error"
    ensures ErrorTitle("payload_too_large") == "Request body too large"
    ensures ErrorTitle("overloaded") == "Server overloaded"
    ensures ErrorTitle("invalid_body") == "Invalid request body"
    ensures ErrorTitle("unsupported_media_type") == "Unsupported media type"
    ensures code !in ["internal", "payload_too_large", "overloaded", "invalid_body", "unsupported_media_type"] ==>
      ErrorTitle(code) == code
  {
    assert "internal" in ERROR_TITLES && "overloaded" in ERROR_TITLES;
  }

  /** strings.EqualFold, given the simple case folding of one character. */
  predicate EqualFold(fold: char -> char, a: string, b: string) {
    |a| == |b| && forall i :: 0 <= i < |a| ==> fold(a[i]) == fold(b[i])
  }

  /** With folding that changes nothing it is equality. */
  lemma EqualFoldIsEquality(a: string, b: string)
    ensures EqualFold((c: char) => c, a, b) <==> a == b
  {}

  function NewErrorObject(fold: char -> char, status: int, code: string, detail: string, pointer: string): ErrorObject {
    var title := ErrorTitle(code);
    ErrorObject(FormatInt(status), code, title,
                if EqualFold(fold, detail, title) then "" else detail,
                if pointer != "" then Some(pointer) else None)
  }

  function ObjectOf(fold: char -> char, c: ClientError): ErrorObject {
    NewErrorObject(fold, c.status, c.code, c.message, c.pointer)
  }

  function ObjectsOf(fold: char -> char, cs: seq<ClientError>): seq<ErrorObject> {
    seq(|cs|, i requires 0 <= i < |cs| => ObjectOf(fold, cs[i]))
  }

  /** WriteError's response. */
  function Respond(fold: char -> char, err: Err): (d: Document)
    ensures d.objects != []
  {
    var found := Topmost(err);
    if found == [] then Document(500, [NewErrorObject(fold, 500, "internal", "", "")])
    else Document(SharedOrGeneral(StatusesOf(found)), ObjectsOf(fold, found))
  }

  function CodesOf(cs: seq<ClientError>): seq<string> {
    seq(|cs|, i requires 0 <= i < |cs| => cs[i].code)
  }

  /** WriteError's loop: the objects to send and the codes to log. */
  method Render(fold: char -> char, clientErrs: seq<ClientError>)
    returns (objects: seq<ErrorObject>, codes: seq<string>)
    ensures objects == ObjectsOf(fold, clientErrs) && codes == CodesOf(clientErrs)
  {
    objects, codes := [], [];
    var i := 0;
    while i < |clientErrs|
      invariant 0 <= i <= |clientErrs|
      invariant objects == ObjectsOf(fold, clientErrs)[..i]
      invariant codes == CodesOf(clientErrs)[..i]
    {
      objects := objects + [ObjectOf(fold, clientErrs[i])];
      codes := codes + [clientErrs[i].code];
      i := i + 1;
    }
  }

  /** Object o tells the client about error c: its own status, code and pointer;
      the title that belongs to the code, which is the code where none does; and
      the message, unless it only restates the title. */
  predicate Reports(fold: char -> char, o: ErrorObject, c: ClientError) {
    && o.code == c.code
    && IsNumeral(o.status) && NumeralValue(o.status) == c.status
    && (c.code in ERROR_TITLES.Keys ==> o.title == ERROR_TITLES[c.code])
    && (c.code !in ERROR_TITLES.Keys ==> o.title == c.code)
    && (if EqualFold(fold, c.message, o.title) then o.detail == "" else o.detail == c.message)
    && (if c.pointer == "" then o.source.None? else o.source == Some(c.pointer))
  }

  /** One object for each of the topmost client errors, in order, each reporting
      its own; and where there is none a single object that tells nothing but that
      the server failed. */
  lemma ObjectsTell(fold: char -> char, err: Err)
    ensures var d := Respond(fold, err); var found := Topmost(err);
      && (found != [] ==>
            |d.objects| == |found| && forall i :: 0 <= i < |found| ==> Reports(fold, d.objects[i], found[i]))
      && (found == [] ==> d.status == 500 && |d.objects| == 1
                          && Reports(fold, d.objects[0], Client(500, "internal", "", "", Nil)))
  {
    forall c: ClientError
      ensures Reports(fold, ObjectOf(fold, c), c)
    {
      FormatIntIsNumeral(c.status);
    }
    assert Reports(fold, ObjectOf(fold, Client(500, "internal", "", "", Nil)), Client(500, "internal", "", "", Nil));
  }

  /** Case folding over the Latin letters: it joins the two cases of each and
      nothing else with them. */
  ghost predicate FoldsCase(fold: char -> char) {
    && (forall c :: 'A' <= c <= 'Z' ==> fold(c) == fold(c - 'A' + 'a'))
    && (forall c, d :: 'a' <= c <= 'z' && fold(c) == fold(d) ==> d == c || d == c - 'a' + 'A')
  }

  /** What the client reads for a failure of the server, and for a message that is
      the title in another letter case, which is not sent twice. */
  lemma RestatementIsDropped(fold: char -> char)
    requires FoldsCase(fold)
    ensures Respond(fold, Nil).objects == [ErrorObject(FormatInt(500), "internal", "Internal server error", "", None)]
    ensures Respond(fold, Client(415, "unsupported_media_type", "unsupported media type", "", Nil)) ==
      Document(415, [ErrorObject(FormatInt(415), "unsupported_media_type", "Unsupported media type", "", None)])
  {}

  /** And for a message that says more than its title. */
  lemma DetailIsKept(fold: char -> char)
    requires FoldsCase(fold)
    ensures Respond(fold, Client(400, "invalid_body", "request body is empty", "/name", Nil)) ==
      Document(400, [ErrorObject(
        FormatInt(400), "invalid_body", "Invalid request body", "request body is empty", Some("/name"))])
  {}

  method WriteError(fold: char -> char, err: Err) returns (d: Document, codes: seq<string>)
    ensures d == Respond(fold, err)
    ensures Topmost(err) != [] ==>
      && |d.objects| == |codes| == |Topmost(err)|
      && forall i :: 0 <= i < |codes| ==>
        Reports(fold, d.objects[i], Topmost(err)[i]) && codes[i] == Topmost(err)[i].code
    ensures Topmost(err) == [] ==>
      && d.status == 500 && |d.objects| == 1 && codes == []
      && Reports(fold, d.objects[0], Client(500, "internal", "", "", Nil))
  {
    ObjectsTell(fold, err);
    var clientErrs := AppendClientErrors([], err);
    assert clientErrs == Topmost(err);
    if |clientErrs| == 0 {
      d := Document(500, [NewErrorObject(fold, 500, "internal", "", "")]);
      codes := [];
      return;
    }
    var status := DocumentStatus(clientErrs);
    var objects;
    objects, codes := Render(fold, clientErrs);
    d := Document(status, objects);
  }

  // ---- what reaches the client ----

  /** A tree with everything meant for the log only taken out: every cause, and
      the text of every wrapper and leaf. */
  function Redacted(e: Err): Err
    decreases e, 0
  {
    match e
    case Nil => Nil
    case Client(s, c, m, p, _) => Client(s, c, m, p, Nil)
    case Wrap(_, inner) => Wrap("", Redacted(inner))
    case Join(parts) => Join(RedactedAll(parts))
    case Plain(_) => Plain("")
  }

  function RedactedAll(es: seq<Err>): seq<Err>
    decreases es, 1
  {
    if es == [] then [] else [Redacted(es[0])] + RedactedAll(es[1..])
  }

  /** Agreement on the fields a client may see, error by error. */
  predicate SamePublic(a: seq<ClientError>, b: seq<ClientError>) {
    |a| == |b| && forall i :: 0 <= i < |a| ==>
      && a[i].status == b[i].status && a[i].code == b[i].code
      && a[i].message == b[i].message && a[i].pointer == b[i].pointer
  }

  lemma {:induction false} RedactionKeepsPublic(e: Err)
    ensures SamePublic(Topmost(Redacted(e)), Topmost(e))
    decreases e, 0
  {
    match e
    case Nil =>
    case Plain(_) =>
    case Client(_, _, _, _, _) =>
    case Wrap(_, inner) => RedactionKeepsPublic(inner);
    case Join(parts) => RedactionKeepsAllPublic(parts);
  }

  lemma {:induction false} RedactionKeepsAllPublic(es: seq<Err>)
    ensures SamePublic(TopmostOfAll(RedactedAll(es)), TopmostOfAll(es))
    decreases es, 1
  {
    if es != [] {
      RedactionKeepsPublic(es[0]);
      RedactionKeepsAllPublic(es[1..]);
      assert RedactedAll(es)[0] == Redacted(es[0]) && RedactedAll(es)[1..] == RedactedAll(es[1..]);
    }
  }

  /** The response is a function of the topmost client errors' public fields. */
  lemma RespondsToPublicFields(fold: char -> char, a: Err, b: Err)
    requires SamePublic(Topmost(a), Topmost(b))
    ensures Respond(fold, a) == Respond(fold, b)
  {
    assert StatusesOf(Topmost(a)) == StatusesOf(Topmost(b));
    assert ObjectsOf(fold, Topmost(a)) == ObjectsOf(fold, Topmost(b));
  }

  /** No cause, wrapper text or plain error ever reaches the client: two trees
      that differ only in those get the same response. */
  lemma CausesNeverReachTheClient(fold: char -> char, a: Err, b: Err)
    requires Redacted(a) == Redacted(b)
    ensures Respond(fold, a) == Respond(fold, b)
  {
    RedactionKeepsPublic(a);
    RedactionKeepsPublic(b);
    RespondsToPublicFields(fold, a, b);
  }
}
