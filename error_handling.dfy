/**
  handleError: turns a thrown error into the toast the client shows.
  A failed request carries the server's response; the object under
  `response.data.data` is modelled as its key/value pairs in key order.
  Where the source itself throws while building the toast (a payload
  without keys, a non-string first value, a 401 without a payload) the
  result is `Err` with the message the engine would throw.
*/
module ErrorHandling {
  import opened Wrappers

  /** A value under `response.data.data`: only strings can be capitalised. */
  datatype Value = Str(s: string) | NonString

  /** The server's answer to a failed request. */
  datatype Response = Response(status: int, payload: Option<seq<(string, Value)>>)

  /** A thrown error: its message and, for a failed request, the response. */
  datatype JsError = JsError(message: string, response: Option<Response>)

  /** The record handed to the toast. */
  datatype Notification = Notification(
    title: Option<string>, description: string, status: string, position: string, duration: int)

  const DefaultTitle := "Message"
  const UnauthenticatedDescription := "Unauthenticated, please login again"
  const NoFirstKey := "Cannot read properties of undefined (reading 'charAt')"
  const NotAString := "description.charAt is not a function"
  const NoPayload := "Cannot read properties of undefined (reading 'message')"

  /** An error toast: always status 'error', at the top, for three seconds. */
  function ErrorToast(title: string, description: string): Notification
  {
    Notification(Some(title), description, "error", "top", 3000)
  }

  /** A success toast, as the drawers raise after a completed request. */
  function SuccessToast(description: string): Notification
  {
    Notification(None, description, "success", "top", 3000)
  }

  function UpperChar(ch: char): char
  {
    if 'a' <= ch <= 'z' then (ch as int - 32) as char else ch
  }

  /** `s.charAt(0).toUpperCase() + s.slice(1)`. */
  function Capitalize(s: string): (r: string)
    ensures |r| == |s|
    ensures s != [] ==> r[1..] == s[1..] && !('a' <= r[0] <= 'z')
    ensures s != [] ==> r[0] == if 'a' <= s[0] <= 'z' then (s[0] as int - 32) as char else s[0]
  {
    if s == [] then [] else [UpperChar(s[0])] + s[1..]
  }

  /** Property lookup on the payload object. */
  function Lookup(fields: seq<(string, Value)>, key: string): Option<Value>
  {
    if fields == [] then None
    else if fields[0].0 == key then Some(fields[0].1)
    else Lookup(fields[1..], key)
  }

  /** A response with a status in [400, 500). */
  predicate ClientError(err: JsError)
  {
    err.response.Some? && 400 <= err.response.value.status < 500
  }

  function HandleError(err: JsError): (r: Result<Notification, string>)
    ensures r.Ok? ==>
      r.value.title.Some? && r.value.status == "error" && r.value.position == "top" && r.value.duration == 3000
    ensures !ClientError(err) ==> r == Ok(ErrorToast(DefaultTitle, err.message))
  {
    if ClientError(err) && err.response.value.payload.Some? then
      var fields := err.response.value.payload.value;
      if fields == [] then Err(NoFirstKey)
      else match fields[0].1
        case NonString => Err(NotAString)
        case Str(v) => Unauthenticated(err, ErrorToast(Capitalize(fields[0].0), Capitalize(v)))
    else
      Unauthenticated(err, ErrorToast(DefaultTitle, err.message))
  }

  /** The 401 override applied after the title and description are chosen. */
  function Unauthenticated(err: JsError, toast: Notification): (r: Result<Notification, string>)
    ensures r.Err? <==> err.response.Some? && err.response.value.status == 401 && err.response.value.payload.None?
    ensures r.Err? ==> r.error == NoPayload
    ensures r.Ok? ==> r.value == toast.(description := r.value.description)
    ensures r.Ok? && r.value.description != toast.description ==>
      && r.value.description == UnauthenticatedDescription
      && err.response.Some? && err.response.value.status == 401 && err.response.value.payload.Some?
      && Lookup(err.response.value.payload.value, "message") == Some(Str("unauthenticated"))
    ensures r.Ok? && err.response.Some? && err.response.value.status == 401 &&
            Lookup(err.response.value.payload.value, "message") == Some(Str("unauthenticated")) ==>
      r.value.description == UnauthenticatedDescription
  {
    if err.response.Some? && err.response.value.status == 401 then
      match err.response.value.payload
      case None => Err(NoPayload)
      case Some(fields) =>
        if Lookup(fields, "message") == Some(Str("unauthenticated"))
        then Ok(toast.(description := UnauthenticatedDescription))
        else Ok(toast)
    else Ok(toast)
  }

  /**
    A client error whose payload's first value is a string: the title is the
    first key and the description that value, both capitalised, unless a 401
    says "unauthenticated".
  */
  lemma ClientErrorToast(err: JsError, key: string, v: string, rest: seq<(string, Value)>)
    requires ClientError(err) && err.response.value.payload == Some([(key, Str(v))] + rest)
    ensures HandleError(err).Ok?
    ensures HandleError(err).value.title == Some(Capitalize(key))
    ensures HandleError(err).value.description ==
      if err.response.value.status == 401 && Lookup([(key, Str(v))] + rest, "message") == Some(Str("unauthenticated"))
      then UnauthenticatedDescription
      else Capitalize(v)
  {
  }

  /** The cases in which building the toast throws. */
  lemma HandleErrorThrows(err: JsError)
    ensures HandleError(err).Err? <==>
      ClientError(err) &&
      match err.response.value.payload
      case None => err.response.value.status == 401
      case Some(fields) => fields == [] || fields[0].1.NonString?
  {
  }

  /** Capitalising twice is capitalising once. */
  lemma CapitalizeIdempotent(s: string)
    ensures Capitalize(Capitalize(s)) == Capitalize(s)
  {
  }
}
