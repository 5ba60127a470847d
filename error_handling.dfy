/** Normalisation of whatever an API call throws into `{status, message, details}`, and
    the message shown to the user for it (strapifront/src/utils/errorHandling.ts). */
module ErrorHandling {
  import opened Options
  import opened JsValues

  const UnknownError := "An unknown error occurred"
  const BadRequestText := "The request was invalid. Please check your input and try again."
  const UnauthorizedText := "You need to be logged in to access this content."
  const ForbiddenText := "You don't have permission to access this content."
  const NotFoundText := "The requested content could not be found."
  const ServerErrorText := "The server encountered an error. Please try again later."
  const UnknownErrorText := "An unknown error occurred."

  /** The HTTP response an HTTP-client error carries: its status and its parsed body. */
  datatype HttpResponse = HttpResponse(status: int, data: JsValue)

  /** A thrown value: an HTTP-client (axios) error, with a response when the server
      answered; an `Error` instance; or any other value. */
  datatype Thrown =
    | ClientError(message: string, response: Option<HttpResponse>)
    | ErrorInstance(message: string)
    | OtherValue(value: JsValue)

  /** `ApiError`; `details` is `Undefined` where the key is absent. */
  datatype ApiError = ApiError(status: JsValue, message: JsValue, details: JsValue)

  /** The outcome of `handleApiError`: the normalised error, or a TypeError it throws itself. */
  datatype Handled = Normalised(error: ApiError) | Threw

  /** The response body is Strapi's error envelope: a truthy object with an `error` key.
      Every object is truthy, so the envelope is exactly an object body with that key. */
  predicate IsStrapiBody(r: Option<HttpResponse>)
    ensures IsStrapiBody(r) <==> r.Some? && r.value.data.Obj? && "error" in r.value.data.props
  {
    r.Some? && Truthy(r.value.data) && r.value.data.Obj? && "error" in r.value.data.props
  }

  /** The `error` field of a Strapi error body. */
  function StrapiError(r: Option<HttpResponse>): JsValue
    requires IsStrapiBody(r)
  {
    r.value.data.props["error"]
  }

  /** `handleApiError(error)`. The status falls back to 500 in every branch and is never falsy;
      an `error` field that is `null` in a Strapi body makes the function itself throw. */
  function HandleApiError(error: Thrown): (h: Handled)
    ensures h.Normalised? ==> Truthy(h.error.status)
    ensures h.Threw? <==> error.ClientError? && IsStrapiBody(error.response)
                          && StrapiError(error.response) in {Undefined, Null}
    // Strapi error body: status from the body, then the response, then 500; details copied
    ensures error.ClientError? && IsStrapiBody(error.response) && h.Normalised? ==>
              var body := StrapiError(error.response);
              var status := OptProp(body, "status");
              var message := OptProp(body, "message");
              && h.error.status == (if Truthy(status) then status
                                    else if error.response.value.status != 0 then Num(error.response.value.status)
                                    else Num(500))
              && h.error.message == (if Truthy(message) then message else Str(UnknownError))
              && h.error.details == OptProp(body, "details")
    // any other client error: the response status or 500; details are the raw body
    ensures error.ClientError? && !IsStrapiBody(error.response) ==>
              h.Normalised?
              && h.error.status == (if error.response.Some? && error.response.value.status != 0
                                    then Num(error.response.value.status) else Num(500))
              && h.error.message == (if error.message != "" then Str(error.message) else Str(UnknownError))
              && h.error.details == (if error.response.Some? then error.response.value.data else Undefined)
    // not a client error: 500, no details
    ensures !error.ClientError? ==>
              h == Normalised(ApiError(Num(500), Str(if error.ErrorInstance? then error.message else UnknownError), Undefined))
  {
    match error
    case ClientError(message, response) =>
      if IsStrapiBody(response) then
        var strapiError := response.value.data.props["error"];
        match Prop(strapiError, "status")
        case TypeError => Threw
        case Value(status) =>
          Normalised(ApiError(
            Or(status, Or(Num(response.value.status), Num(500))),
            Or(OptProp(strapiError, "message"), Str(UnknownError)),
            OptProp(strapiError, "details")))
      else
        Normalised(ApiError(
          if response.Some? then Or(Num(response.value.status), Num(500)) else Num(500),
          Or(Str(message), Str(UnknownError)),
          if response.Some? then response.value.data else Undefined))
    case ErrorInstance(message) => Normalised(ApiError(Num(500), Str(message), Undefined))
    case OtherValue(_) => Normalised(ApiError(Num(500), Str(UnknownError), Undefined))
  }

  /** `getUserFriendlyErrorMessage(error)`: five statuses have fixed messages (compared with
      `===`, so only numbers match); any other status shows the error's own message, or a
      fixed text when that is falsy. */
  function FriendlyMessage(error: ApiError): (m: JsValue)
    ensures error.status == Num(400) ==> m == Str(BadRequestText)
    ensures error.status == Num(401) ==> m == Str(UnauthorizedText)
    ensures error.status == Num(403) ==> m == Str(ForbiddenText)
    ensures error.status == Num(404) ==> m == Str(NotFoundText)
    ensures error.status == Num(500) ==> m == Str(ServerErrorText)
    ensures error.status !in {Num(400), Num(401), Num(403), Num(404), Num(500)} ==>
              m == if Truthy(error.message) then error.message else Str(UnknownErrorText)
    ensures Truthy(m)
  {
    match error.status
    case Num(400) => Str(BadRequestText)
    case Num(401) => Str(UnauthorizedText)
    case Num(403) => Str(ForbiddenText)
    case Num(404) => Str(NotFoundText)
    case Num(500) => Str(ServerErrorText)
    case _ => Or(error.message, Str(UnknownErrorText))
  }

  /** Whatever is thrown, the normalised status is one of the response's own status, a
      value from a Strapi error body, or 500, and it is never 0 or missing. */
  lemma StatusNeverMissing(error: Thrown)
    requires HandleApiError(error).Normalised?
    ensures HandleApiError(error).error.status !in {Undefined, Null, Num(0), Str(""), Bool(false)}
  {
  }

  /** The normalised message is always present, except for an `Error` instance whose own
      message is empty, which is copied as it is. */
  lemma MessageMissingOnlyForEmptyError(error: Thrown)
    requires HandleApiError(error).Normalised?
    ensures !Truthy(HandleApiError(error).error.message) <==> error == ErrorInstance("")
  {
  }

  /** Anything thrown that is not an HTTP-client error is shown as a server error. */
  lemma NonClientErrorShowsServerText(error: Thrown)
    requires !error.ClientError?
    ensures FriendlyMessage(HandleApiError(error).error) == Str(ServerErrorText)
  {
  }

  /** A client error without a response (the request never reached the server) is shown as a server error. */
  lemma NoResponseShowsServerText(message: string)
    ensures FriendlyMessage(HandleApiError(ClientError(message, None)).error) == Str(ServerErrorText)
  {
  }

  /** A Strapi body whose status is 404 is shown as "not found", whatever the HTTP status. */
  lemma StrapiNotFoundShown(message: string, httpStatus: int, fields: map<string, JsValue>)
    requires "status" in fields && fields["status"] == Num(404)
    ensures var body := Obj(map["error" := Obj(fields)]);
            FriendlyMessage(HandleApiError(ClientError(message, Some(HttpResponse(httpStatus, body)))).error)
              == Str(NotFoundText)
  {
  }
}
