/** What the handlers send back. Each controller module keeps one mutable
    `responseAPI` envelope `{ data, msg, status }` that its handlers overwrite
    and send; not-found and bad-credential answers bypass it with a bare
    `{ error }` object. */
module Responses {
  import opened Documents
  import opened Models

  /** The `data` member of an envelope. Its initial value is the empty array. */
  datatype Payload =
    | EmptyList
    | Desserts(desserts: seq<Entry<Postre>>)
    | Dessert(dessert: Entry<Postre>)
    | Users(users: seq<Entry<Usuario>>)
    | User(user: Entry<Usuario>)
    | Account(id: Id, account: Document<Profile>)

  datatype Envelope = Envelope(data: Payload, msg: string, status: string)

  /** A response body: the module's envelope, an `{ error }` object, or the
      `{ usuario }` object a successful login sends. */
  datatype Body =
    | Sent(envelope: Envelope)
    | ErrorJson(error: string)
    | LoggedInUser(id: Id, usuario: Document<Profile>)

  datatype Response = Response(code: int, body: Body)

  const StatusOk := "ok"
  const StatusError := "error"

  /** The envelope every controller module starts with. */
  function Initial(): (e: Envelope)
    ensures e.status == StatusOk && e.data == EmptyList && e.msg == ""
  {
    Envelope(EmptyList, "", StatusOk)
  }

  /** A success path sets `data` and `msg`; it leaves `status` as it was. */
  function Succeed(e: Envelope, data: Payload, msg: string): (r: Envelope)
    ensures r.data == data && r.msg == msg && r.status == e.status
  {
    e.(data := data, msg := msg)
  }

  /** A catch block sets `msg` and `status`; it leaves the last `data` in place. */
  function Fail(e: Envelope, msg: string): (r: Envelope)
    ensures r.data == e.data && r.msg == msg && r.status == StatusError
  {
    e.(msg := msg, status := StatusError)
  }

  /** What one handler call does to its module's envelope. */
  datatype Outcome = Succeeded(data: Payload, msg: string) | Failed(msg: string) | Untouched

  function Next(e: Envelope, o: Outcome): Envelope
  {
    match o
    case Succeeded(data, msg) => Succeed(e, data, msg)
    case Failed(msg) => Fail(e, msg)
    case Untouched => e
  }

  /** The envelope after a run of handler calls. */
  function Record(e: Envelope, outcomes: seq<Outcome>): (r: Envelope)
    decreases |outcomes|
  {
    if outcomes == [] then e
    else Record(Next(e, outcomes[0]), outcomes[1..])
  }

  /** In a module whose success paths never reset `status`, one failure marks
      every later response "error", successful ones included. */
  lemma {:induction false} ErrorStatusIsSticky(e: Envelope, outcomes: seq<Outcome>, k: nat)
    requires k < |outcomes| && outcomes[k].Failed?
    ensures Record(e, outcomes).status == StatusError
    decreases |outcomes|
  {
    if k == 0 {
      ErrorStaysError(Fail(e, outcomes[0].msg), outcomes[1..]);
    } else {
      ErrorStatusIsSticky(Next(e, outcomes[0]), outcomes[1..], k - 1);
    }
  }

  lemma {:induction false} ErrorStaysError(e: Envelope, outcomes: seq<Outcome>)
    requires e.status == StatusError
    ensures Record(e, outcomes).status == StatusError
    decreases |outcomes|
  {
    if outcomes != [] {
      ErrorStaysError(Next(e, outcomes[0]), outcomes[1..]);
    }
  }
}
