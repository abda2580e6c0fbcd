/** `utils/exceptions.py`: the application's exception classes, their HTTP
    status codes and their dictionary form. */
module Exceptions {

  import opened Results
  import opened Json

  /** `SmartEvalException` and its five subclasses. */
  datatype Kind = SmartEval | Validation | Authentication | Authorization | NotFound | Conflict

  /** The class attribute `status_code` of each class. */
  function ClassStatus(k: Kind): (code: int)
    ensures k == SmartEval <==> 500 <= code < 600
    ensures k != SmartEval <==> 400 <= code < 500
  {
    match k
    case SmartEval => 500
    case Validation => 400
    case Authentication => 401
    case Authorization => 403
    case NotFound => 404
    case Conflict => 409
  }

  /** An exception instance: its class, `message`, instance `status_code`
      and `payload`. */
  datatype AppError = AppError(kind: Kind, message: string, statusCode: int, payload: Option<map<string, Value>>)

  /** `Cls(message, status_code=None, payload=None)`: an explicit status code,
      whatever its value, replaces the class default; `None` keeps it. */
  function Raise(kind: Kind, message: string, statusCode: Option<int> := None,
                 payload: Option<map<string, Value>> := None): (e: AppError)
    ensures e.kind == kind && e.message == message && e.payload == payload
    ensures statusCode.Some? ==> e.statusCode == statusCode.value
    ensures statusCode.None? ==> e.statusCode == ClassStatus(kind)
  {
    AppError(kind, message, statusCode.GetOr(ClassStatus(kind)), payload)
  }

  /** `dict(self.payload or ())`: no payload and an empty one alike give `{}`. */
  function PayloadFields(e: AppError): map<string, Value> {
    e.payload.GetOr(map[])
  }

  /** `to_dict()`: the payload's keys with `message` set to the exception's
      message, replacing any `message` the payload carried. */
  function ToDict(e: AppError): (r: map<string, Value>)
    ensures "message" in r && r["message"] == Str(e.message)
    ensures r.Keys == PayloadFields(e).Keys + {"message"}
    ensures forall k | k in PayloadFields(e) && k != "message" :: r[k] == PayloadFields(e)[k]
    ensures e.payload.None? ==> r == map["message" := Str(e.message)]
  {
    PayloadFields(e)["message" := Str(e.message)]
  }

  /** The class table: every class has its own status code. */
  lemma ClassStatusTable()
    ensures ClassStatus(SmartEval) == 500 && ClassStatus(Validation) == 400
    ensures ClassStatus(Authentication) == 401 && ClassStatus(Authorization) == 403
    ensures ClassStatus(NotFound) == 404 && ClassStatus(Conflict) == 409
    ensures forall a: Kind, b: Kind :: ClassStatus(a) == ClassStatus(b) ==> a == b
  {
  }

  function ValidationError(message: string): AppError {
    Raise(Validation, message)
  }

  function AuthenticationError(message: string): AppError {
    Raise(Authentication, message)
  }

  function ConflictError(message: string): AppError {
    Raise(Conflict, message)
  }
}
