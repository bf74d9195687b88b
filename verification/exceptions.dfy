/** The application exception hierarchy: every class is an
    `ApplicationException` carrying a message and an HTTP status, and each
    subclass fixes its own default status (and, for three of them, a
    default message). */
module Exceptions {
  import opened Wrappers

  /** The exception classes. */
  datatype Kind = Application | Validation | NotFound | Unauthorized | Forbidden | Conflict | InternalServer

  /** A raised application exception: its class, `message` and
      `status_code`. */
  datatype AppError = AppError(kind: Kind, message: string, status: int)

  /** The `status_code` default of each class's constructor. */
  function DefaultStatus(k: Kind): (s: int)
    ensures 400 <= s <= 500
    ensures s == 500 <==> k == Application || k == InternalServer
    ensures s == 400 <==> k == Validation
  {
    match k
    case Application => 500
    case Validation => 400
    case NotFound => 404
    case Unauthorized => 401
    case Forbidden => 403
    case Conflict => 409
    case InternalServer => 500
  }

  /** The `message` default of each class's constructor; None where the
      message is a required argument. */
  function DefaultMessage(k: Kind): (m: Option<string>)
    ensures m.Some? <==> k == Unauthorized || k == Forbidden || k == InternalServer
    ensures m.Some? ==> m.value != ""
  {
    match k
    case Unauthorized => Some("Unauthorized")
    case Forbidden => Some("Forbidden")
    case InternalServer => Some("Internal Server Error")
    case _ => None
  }

  /** The class a client-error status belongs to, the inverse of
      `DefaultStatus` below 500. */
  function KindOfStatus(s: int): (k: Option<Kind>)
    ensures k.Some? ==> DefaultStatus(k.value) == s && s < 500
    ensures k.None? ==> forall c: Kind :: DefaultStatus(c) == s ==> s == 500
  {
    if s == 400 then Some(Validation)
    else if s == 404 then Some(NotFound)
    else if s == 401 then Some(Unauthorized)
    else if s == 403 then Some(Forbidden)
    else if s == 409 then Some(Conflict)
    else None
  }

  /** Every class below 500 is identified by its default status. */
  lemma {:induction false} StatusIdentifiesKind(k: Kind)
    requires DefaultStatus(k) < 500
    ensures KindOfStatus(DefaultStatus(k)) == Some(k)
  {
    match k
    case Validation =>
    case NotFound =>
    case Unauthorized =>
    case Forbidden =>
    case Conflict =>
  }

  /** `k(message, status_code)` with either argument possibly omitted: the
      stored message and status are the arguments given, or the class's
      defaults; omitting a message the class does not default is a
      TypeError, modelled as None. */
  function Make(k: Kind, message: Option<string>, status: Option<int>): (r: Option<AppError>)
    ensures r.None? <==> message.None? && DefaultMessage(k).None?
    ensures r.Some? ==> r.value.kind == k
    ensures r.Some? && message.Some? ==> r.value.message == message.value
    ensures r.Some? && message.None? ==> r.value.message == DefaultMessage(k).value
    ensures r.Some? && status.Some? ==> r.value.status == status.value
    ensures r.Some? && status.None? ==> r.value.status == DefaultStatus(k)
  {
    match message
    case Some(m) => Some(AppError(k, m, status.GetOr(DefaultStatus(k))))
    case None =>
      match DefaultMessage(k)
      case None => None
      case Some(m) => Some(AppError(k, m, status.GetOr(DefaultStatus(k))))
  }

  /** `k(message)`: the exception the rest of the backend raises, with the
      class's default status. */
  function Raise(k: Kind, message: string): (e: AppError)
    ensures Make(k, Some(message), None) == Some(e)
    ensures 400 <= e.status <= 500
  {
    AppError(k, message, DefaultStatus(k))
  }

  /** Anything a view can raise: an application exception, or any other
      exception, known by its `str()` text. */
  datatype Raised = App(error: AppError) | Other(text: string)
}
