/** The response side of one request: the wire that net/http writes to, and the
    statusRecorder of internal/server/responsewriter.go placed in front of it. */
module Response {
  import opened Options

  /** What a handler may do to a response. */
  datatype Op = WriteHeader(code: int) | Write(data: string)

  /** The response as net/http has it: the committed status line, informational
      responses already sent, the Content-Length in force when the status is
      committed, the body bytes counted against it, the body accepted, and how
      many duplicate status lines were dropped with a superfluous-WriteHeader
      warning. Characters stand for bytes. */
  datatype Wire = Wire(
    status: Option<int>, interim: seq<int>, declared: Option<nat>, handed: nat, body: string, superfluous: nat)

  const EMPTY_WIRE := Wire(None, [], None, 0, "", 0)

  predicate ValidCode(code: int) {
    100 <= code <= 999
  }

  /** Section 15.2 of RFC 9110, less 101, which net/http treats as final. */
  predicate Informational(code: int) {
    100 <= code <= 199 && code != 101
  }

  /** Sections 15.3.5 and 15.4.5 of RFC 9110, and every 1xx. */
  predicate BodyAllowed(status: int) {
    !(100 <= status <= 199) && status != 204 && status != 304
  }

  /** Whether net/http takes body bytes on a committed response: it answers
      ErrBodyNotAllowed when the status has no body, and ErrContentLength when
      they exceed what is left of a declared length. */
  predicate Takes(w: Wire, data: string)
    requires w.status.Some?
  {
    BodyAllowed(w.status.value) && (w.declared.Some? ==> w.handed + |data| <= w.declared.value)
  }

  /** Body bytes on a committed response. Refused bytes of a response that has a
      body still count against the declared length. */
  function Carry(w: Wire, data: string): Wire
    requires w.status.Some?
  {
    if data == "" || !BodyAllowed(w.status.value) then w
    else w.(handed := w.handed + |data|, body := if Takes(w, data) then w.body + data else w.body)
  }

  function Commit(w: Wire, status: int): Wire {
    if w.status.Some? then w else w.(status := Some(status))
  }

  /** The effect of one operation; None when net/http panics, as it does for a
      first status that is not a three-digit number. */
  function Send(w: Wire, op: Op): Option<Wire> {
    match op
    case WriteHeader(code) =>
      if w.status.Some? then Some(w.(superfluous := w.superfluous + 1))
      else if !ValidCode(code) then None
      else if Informational(code) then Some(w.(interim := w.interim + [code]))
      else Some(Commit(w, code))
    case Write(data) => Some(Carry(Commit(w, 200), data))
  }

  /** The status the client sees once the handler chain is over. */
  function FinalStatus(w: Wire): int {
    if w.status.Some? then w.status.value else 200
  }

  /** What the client receives; a HEAD response never carries its body. */
  datatype Sight = Sight(status: int, interim: seq<int>, body: string)

  function ClientSees(w: Wire, head: bool): Sight {
    Sight(FinalStatus(w), w.interim, if head then "" else w.body)
  }

  /** The recorder's own fields. */
  datatype Record = Record(status: int, written: bool)

  function Observe(r: Record, op: Op): Record {
    match op
    case WriteHeader(code) => if r.written then r else Record(code, true)
    case Write(_) => r.(written := true)
  }

  /** The recorder and the wire behind it. */
  datatype Exchange = Exchange(record: Record, wire: Wire)

  const FRESH := Exchange(Record(200, false), EMPTY_WIRE)

  /** Setting the Content-Length header touches neither status nor recorder. */
  function Declaring(x: Exchange, length: Option<nat>): Exchange {
    if length.Some? then x.(wire := x.wire.(declared := length)) else x
  }

  /** A request's exchange before its first operation. */
  function Start(declared: Option<nat>): Exchange {
    Declaring(FRESH, declared)
  }

  datatype Played = Played(x: Exchange, panicked: bool)

  function Step(x: Exchange, op: Op): Played {
    var r := Observe(x.record, op);
    match Send(x.wire, op)
    case Some(w) => Played(Exchange(r, w), false)
    case None => Played(Exchange(r, x.wire), true)
  }

  /** Operations in order, up to the first that panics. */
  function Play(x: Exchange, ops: seq<Op>): Played
    decreases |ops|
  {
    if ops == [] then Played(x, false)
    else
      var p := Step(x, ops[0]);
      if p.panicked then p else Play(p.x, ops[1..])
  }

  datatype Delivered = Delivered(wire: Wire, panicked: bool)

  /** The same operations with no recorder in front of the wire. */
  function Deliver(w: Wire, ops: seq<Op>): Delivered
    decreases |ops|
  {
    if ops == [] then Delivered(w, false)
    else
      match Send(w, ops[0])
      case Some(next) => Deliver(next, ops[1..])
      case None => Delivered(w, true)
  }

  // ---- what a list of operations amounts to ----

  /** An informational status line, which is sent at once and commits nothing. */
  predicate IsInterim(op: Op) {
    op.WriteHeader? && 100 <= op.code <= 199 && op.code != 101
  }

  function CodesOf(ops: seq<Op>): seq<int> {
    if ops == [] then [] else (if ops[0].WriteHeader? then [ops[0].code] else []) + CodesOf(ops[1..])
  }

  /** Everything handed to Write, refused or not. */
  function Written(ops: seq<Op>): string {
    if ops == [] then "" else DataOf(ops[0]) + Written(ops[1..])
  }

  /** With k the first operation that is no informational status: those before it
      are sent in order, and it decides: a number that is no status panics, any
      other commits its own status, a body 200, and no operation at all nothing. */
  lemma {:induction false} FirstFinalDecides(w: Wire, ops: seq<Op>, k: nat)
    requires w.status.None? && k <= |ops| && (forall i :: 0 <= i < k ==> IsInterim(ops[i]))
    requires k < |ops| ==> !IsInterim(ops[k])
    ensures var d := Deliver(w, ops);
      && d.wire.interim == w.interim + CodesOf(ops[..k])
      && (d.panicked <==> k < |ops| && ops[k].WriteHeader? && !(100 <= ops[k].code <= 999))
      && d.wire.status == if k == |ops| || d.panicked then None else Some(if ops[k].Write? then 200 else ops[k].code)
    decreases |ops|
  {
    if k > 0 {
      var v := Send(w, ops[0]).value;
      FirstFinalDecides(v, ops[1..], k - 1);
      assert ops[..k][1..] == ops[1..][..k - 1];
      assert w.interim + ([ops[0].code] + CodesOf(ops[1..][..k - 1])) == v.interim + CodesOf(ops[1..][..k - 1]);
    } else {
      assert ops[..0] == [] && w.interim + [] == w.interim;
      if ops != [] && Send(w, ops[0]).Some? {
        CommittedIsKept(Send(w, ops[0]).value, ops[1..]);
      }
    }
  }

  /** After the status is committed nothing panics and it is kept, as are the
      informational ones. */
  lemma {:induction false} CommittedIsKept(w: Wire, ops: seq<Op>)
    requires w.status.Some?
    ensures var d := Deliver(w, ops);
      !d.panicked && d.wire.status == w.status && d.wire.interim == w.interim && d.wire.declared == w.declared
    decreases |ops|
  {
    if ops != [] {
      CommittedIsKept(Send(w, ops[0]).value, ops[1..]);
    }
  }

  /** How many of the operations come before what is written exceeds what is left
      of a declared length; all of them if none is declared. */
  predicate FitsUpTo(w: Wire, ops: seq<Op>, k: nat) {
    && k <= |ops|
    && (w.declared.Some? ==>
          && (k > 0 ==> w.handed + |Written(ops[..k])| <= w.declared.value)
          && (k < |ops| ==> w.handed + |Written(ops[..k + 1])| > w.declared.value))
    && (w.declared.None? ==> k == |ops|)
  }

  function DataOf(op: Op): string {
    if op.Write? then op.data else ""
  }

  lemma WrittenFits(w: Wire, op: Op)
    requires w.status.Some? && BodyAllowed(w.status.value)
    requires w.declared.Some? ==> w.handed + |DataOf(op)| <= w.declared.value
    ensures Send(w, op).Some?
    ensures var v := Send(w, op).value;
      && v.status == w.status && v.declared == w.declared
      && v.body == w.body + DataOf(op) && v.handed == w.handed + |DataOf(op)|
  {
    assert w.body + "" == w.body;
  }

  /** The body after the status is committed: what is written, in order, as far as
      it fits; and nothing for a status without a body. */
  lemma {:induction false} BodyIsWhatFits(w: Wire, ops: seq<Op>, k: nat)
    requires w.status.Some? && FitsUpTo(w, ops, k)
    ensures var s := w.status.value; var d := Deliver(w, ops);
      d.wire.body == w.body + (if 100 <= s <= 199 || s == 204 || s == 304 then "" else Written(ops[..k]))
    decreases |ops|
  {
    assert w.body + "" == w.body;
    if !BodyAllowed(w.status.value) {
      NoBodyEver(w, ops);
    } else if k == 0 {
      assert ops[..0] == [];
      if ops != [] {
        NothingFits(w, ops);
      }
    } else {
      PrefixOfRest(ops, k);
      if k < |ops| {
        PrefixOfRest(ops, k + 1);
      }
      WrittenFits(w, ops[0]);
      BodyIsWhatFits(Send(w, ops[0]).value, ops[1..], k - 1);
      Associates(w.body, DataOf(ops[0]), Written(ops[1..][..k - 1]));
    }
  }

  lemma Associates(a: string, b: string, c: string)
    ensures (a + b) + c == a + (b + c)
  {}

  lemma PrefixOfRest(ops: seq<Op>, k: nat)
    requires 0 < k <= |ops|
    ensures Written(ops[..k]) == DataOf(ops[0]) + Written(ops[1..][..k - 1])
  {
    assert ops[..k][1..] == ops[1..][..k - 1] && ops[..k][0] == ops[0];
  }

  lemma {:induction false} NoBodyEver(w: Wire, ops: seq<Op>)
    requires w.status.Some? && !BodyAllowed(w.status.value)
    ensures Deliver(w, ops).wire.body == w.body
    decreases |ops|
  {
    if ops != [] {
      NoBodyEver(Send(w, ops[0]).value, ops[1..]);
    }
  }

  /** Once what is written exceeds the declared length nothing more is taken. */
  lemma {:induction false} NothingFits(w: Wire, ops: seq<Op>)
    requires w.status.Some? && w.declared.Some? && ops != []
    requires w.handed + |Written(ops[..1])| > w.declared.value
    ensures Deliver(w, ops).wire.body == w.body
    decreases |ops|
  {
    PrefixOfRest(ops, 1);
    var v := Send(w, ops[0]).value;
    if BodyAllowed(w.status.value) && |ops| > 1 {
      PrefixOfRest(ops[1..], 1);
      NothingFits(v, ops[1..]);
    } else if |ops| > 1 {
      NoBodyEver(v, ops[1..]);
    }
  }

  /** The recorder is transparent: it changes neither what reaches the wire nor
      whether an operation panics. */
  lemma {:induction false} RecorderIsTransparent(x: Exchange, ops: seq<Op>)
    ensures Deliver(x.wire, ops) == Delivered(Play(x, ops).x.wire, Play(x, ops).panicked)
    decreases |ops|
  {
    if ops != [] && !Step(x, ops[0]).panicked {
      RecorderIsTransparent(Step(x, ops[0]).x, ops[1..]);
    }
  }

  /** An operation that commits the response when it comes first. */
  predicate Commits(op: Op) {
    op.WriteHeader? ==> ValidCode(op.code) && !Informational(op.code)
  }

  predicate Agrees(x: Exchange) {
    (x.record.written <==> x.wire.status.Some?) && x.record.status == FinalStatus(x.wire)
  }

  /** Once committed, recorder and wire agree for ever and nothing can panic. */
  lemma {:induction false} CommittedStaysInStep(x: Exchange, ops: seq<Op>)
    requires x.record.written && x.wire.status == Some(x.record.status)
    ensures !Play(x, ops).panicked
    ensures Play(x, ops).x.record == x.record && Play(x, ops).x.wire.status == x.wire.status
    decreases |ops|
  {
    if ops != [] {
      CommittedStaysInStep(Step(x, ops[0]).x, ops[1..]);
    }
  }

  /** A status the wire can never commit stays in the recorder for ever. */
  lemma {:induction false} MisrecordedStaysWrong(x: Exchange, ops: seq<Op>)
    requires x.record.written && (ValidCode(x.record.status) ==> Informational(x.record.status))
    requires x.wire.status.Some? ==> ValidCode(x.wire.status.value) && !Informational(x.wire.status.value)
    ensures Play(x, ops).x.record == x.record
    ensures x.record.status != FinalStatus(Play(x, ops).x.wire)
    decreases |ops|
  {
    if ops != [] {
      MisrecordedStaysWrong(Step(x, ops[0]).x, ops[1..]);
    }
  }

  /** The recorder and the wire agree after a handler's operations exactly when
      there were none or the first of them commits the response. */
  lemma RecorderAgreesExactlyWhen(declared: Option<nat>, ops: seq<Op>)
    ensures Agrees(Play(Start(declared), ops).x) <==> ops == [] || Commits(ops[0])
    ensures ops == [] || Commits(ops[0]) ==> !Play(Start(declared), ops).panicked
  {
    if ops != [] {
      var p := Step(Start(declared), ops[0]);
      if Commits(ops[0]) {
        CommittedStaysInStep(p.x, ops[1..]);
      } else if !p.panicked {
        MisrecordedStaysWrong(p.x, ops[1..]);
      }
    }
  }

  /** What the recorder says is the first operation's status, whatever follows. */
  lemma {:induction false} WrittenNeverChanges(x: Exchange, ops: seq<Op>)
    requires x.record.written
    ensures Play(x, ops).x.record == x.record
    decreases |ops|
  {
    if ops != [] {
      WrittenNeverChanges(Step(x, ops[0]).x, ops[1..]);
    }
  }

  lemma FirstOperationIsRecorded(declared: Option<nat>, ops: seq<Op>)
    ensures Play(Start(declared), ops).x.record ==
            if ops == [] then Record(200, false)
            else Record(if ops[0].WriteHeader? then ops[0].code else 200, true)
  {
    if ops != [] && !Step(Start(declared), ops[0]).panicked {
      WrittenNeverChanges(Step(Start(declared), ops[0]).x, ops[1..]);
    }
  }

  /** The http.ResponseWriter underneath the middleware. */
  class ResponseWriter {
    var status: Option<int>
    var interim: seq<int>
    var declared: Option<nat>
    var handed: nat
    var body: string
    var superfluous: nat

    constructor ()
      ensures View() == EMPTY_WIRE
    {
      status, interim, declared := None, [], None;
      handed, body, superfluous := 0, "", 0;
    }

    function View(): Wire
      reads this
    {
      Wire(status, interim, declared, handed, body, superfluous)
    }

    /** The handler sets the Content-Length header. */
    method Declare(length: nat)
      modifies this
      ensures View() == old(View()).(declared := Some(length))
    {
      declared := Some(length);
    }

    method WriteHeader(code: int) returns (panicked: bool)
      modifies this
      ensures panicked <==> Send(old(View()), Op.WriteHeader(code)).None?
      ensures View() == if panicked then old(View()) else Send(old(View()), Op.WriteHeader(code)).value
    {
      panicked := false;
      if status.Some? {
        superfluous := superfluous + 1;
      } else if !ValidCode(code) {
        panicked := true;
      } else if Informational(code) {
        interim := interim + [code];
      } else {
        status := Some(code);
      }
    }

    method Write(data: string)
      modifies this
      ensures Send(old(View()), Op.Write(data)) == Some(View())
    {
      if status.None? {
        status := Some(200);
      }
      if data == "" || !BodyAllowed(status.value) {
        return;
      }
      handed := handed + |data|;
      if declared.None? || handed <= declared.value {
        body := body + data;
      }
    }

    /** Carries out operations until one panics. */
    method Perform(ops: seq<Op>) returns (panicked: bool)
      modifies this
      ensures Delivered(View(), panicked) == Deliver(old(View()), ops)
    {
      var i := 0;
      panicked := false;
      while i < |ops|
        invariant 0 <= i <= |ops|
        invariant Deliver(old(View()), ops) == Deliver(View(), ops[i..])
      {
        assert ops[i..][0] == ops[i] && ops[i..][1..] == ops[i + 1..];
        match ops[i] {
          case WriteHeader(code) =>
            panicked := WriteHeader(code);
            if panicked {
              return;
            }
          case Write(data) =>
            Write(data);
        }
        i := i + 1;
      }
    }
  }

  class StatusRecorder {
    const wire: ResponseWriter
    var status: int
    var written: bool

    constructor (wire: ResponseWriter)
      ensures this.wire == wire && View() == Exchange(Record(200, false), wire.View())
    {
      this.wire := wire;
      status, written := 200, false;
    }

    function View(): Exchange
      reads this, wire
    {
      Exchange(Record(status, written), wire.View())
    }

    method WriteHeader(code: int) returns (panicked: bool)
      modifies this, wire
      ensures Played(View(), panicked) == Step(old(View()), Op.WriteHeader(code))
    {
      if !written {
        status := code;
        written := true;
      }
      panicked := wire.WriteHeader(code);
    }

    method Write(data: string)
      modifies this, wire
      ensures Played(View(), false) == Step(old(View()), Op.Write(data))
    {
      written := true;
      wire.Write(data);
    }

    method Written() returns (r: bool)
      ensures r == View().record.written
    {
      r := written;
    }

    /** Carries out operations until one panics. */
    method Perform(ops: seq<Op>) returns (panicked: bool)
      modifies this, wire
      ensures Played(View(), panicked) == Play(old(View()), ops)
    {
      var i := 0;
      panicked := false;
      while i < |ops|
        invariant 0 <= i <= |ops|
        invariant Play(old(View()), ops) == Play(View(), ops[i..])
      {
        assert ops[i..][0] == ops[i] && ops[i..][1..] == ops[i + 1..];
        match ops[i] {
          case WriteHeader(code) =>
            panicked := WriteHeader(code);
            if panicked {
              return;
            }
          case Write(data) =>
            Write(data);
        }
        i := i + 1;
      }
    }
  }
}
