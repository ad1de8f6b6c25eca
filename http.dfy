/** What both serverless handlers share: reading optional request fields,
    the default HTTP method, the database-URL guard and the error messages. */
module Http {

  /** A request field that may be absent (`dict.get` without the key). */
  datatype Option<T> = None | Some(value: T)

  /** `d.get(key, default)` for a field that may be absent. */
  function GetOr<T>(o: Option<T>, default: T): (r: T)
    ensures o.None? ==> r == default
    ensures o.Some? ==> r == o.value
  {
    match o
    case None => default
    case Some(v) => v
  }

  /** `event.get('httpMethod', 'GET')`: a request without a method is a GET. */
  function RequestMethod(httpMethod: Option<string>): (m: string)
    ensures httpMethod.None? ==> m == "GET"
    ensures httpMethod.Some? ==> m == httpMethod.value
  {
    GetOr(httpMethod, "GET")
  }

  /** `if not dsn`: the `DATABASE_URL` variable is unset or empty. */
  predicate DsnConfigured(dsn: Option<string>)
    // Python's `not dsn` holds for a missing variable and for the empty string
    ensures !DsnConfigured(dsn) <==> dsn.None? || |dsn.value| == 0
  {
    dsn.Some? && dsn.value != ""
  }

  const OkStatus := 200
  const CreatedStatus := 201
  const BadRequestStatus := 400
  const NotAllowedStatus := 405
  const ServerErrorStatus := 500

  const DatabaseMissing := "Database configuration missing"
  const MethodNotAllowed := "Method not allowed"
}
