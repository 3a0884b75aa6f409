/** The request gateway `api`: one REST call with an optional bearer token
    taken from persisted preferences, a toast for the message the server sends
    back, and eviction of the token when the server answers 401.

    The platform pieces are abstract: the preferences store is the one value
    kept under `company_auth_token`, the toast sink is the list of toasts shown
    so far, and `fetch` plus `response.json()` are an `Outcome` chosen by the
    environment. */
module ApiService {
  import opened Wrappers

  const BaseUrl: string := "http://localhost:3000"
  const TokenKey: string := "company_auth_token"
  const FallbackMessage: string := "Ocorreu um erro ao tentar acessar a API"

  datatype HttpMethod = GET | POST | PUT | DELETE

  /** `ApiProps` (`verb` is its `method` field); an absent `removeTokenFromHeader` reads as `false`. */
  datatype ApiProps<B> = ApiProps(
    pathname: string,
    verb: HttpMethod,
    body: Option<B>,
    removeTokenFromHeader: bool)

  /** `ApiResponse<T>`: the envelope every backend answer is decoded into. */
  datatype ApiResponse<T> = ApiResponse(
    error: Option<bool>,
    warning: Option<bool>,
    success: Option<bool>,
    message: Option<string>,
    data: Option<T>,
    status: Option<int>)

  /** The JSON text `JSON.stringify(body)` produces, kept opaque. */
  datatype Json<B> = Stringified(value: B)

  /** The arguments handed to `fetch`. */
  datatype FetchRequest<B> = FetchRequest(
    url: string,
    verb: HttpMethod,
    headers: map<string, string>,
    body: Option<Json<B>>)

  datatype ToastKind = SuccessToast | ErrorToast | WarningToast

  /** One call into the toast sink; `toast.error(undefined)` is possible. */
  datatype Toast = Toast(kind: ToastKind, message: Option<string>)

  /** How the awaited steps before the classification end: some step threw (the
      preferences read, `JSON.stringify`, `fetch`, `response.json()`, or reading
      `status` of a `null` body), or the body was decoded. The HTTP status of
      the response travels along but is never consulted. */
  datatype Outcome<T> = Threw | Decoded(httpStatus: int, body: ApiResponse<T>)

  /** What one call returns and leaves behind: the envelope, the toasts it
      showed, and the stored token afterwards. */
  datatype Effects<T> = Effects(response: ApiResponse<T>, toasts: seq<Toast>, stored: Option<string>)

  /** JavaScript truthiness of an optional string. */
  predicate Truthy(s: Option<string>) {
    s.Some? && s.value != ""
  }

  /** JavaScript truthiness of an optional boolean. */
  predicate IsTrue(b: Option<bool>) {
    b == Some(true)
  }

  /** The envelope returned when anything in the call throws. */
  function Fallback<T>(): (r: ApiResponse<T>)
    ensures r.error == Some(true) && r.message == Some(FallbackMessage)
    ensures r.success == r.warning == None && r.data == None && r.status == None
  {
    ApiResponse(Some(true), None, None, Some(FallbackMessage), None, None)
  }

  /** `!removeTokenFromHeader && value`, kept only when it is truthy. */
  function BearerToken(removeTokenFromHeader: bool, stored: Option<string>): (token: Option<string>)
    ensures token.Some? <==> !removeTokenFromHeader && Truthy(stored)
    ensures token.Some? ==> token == stored
  {
    if !removeTokenFromHeader && Truthy(stored) then stored else None
  }

  /** The header object: the JSON content type, and `Authorization` only for a token. */
  function Headers(token: Option<string>): (h: map<string, string>)
    ensures "Content-Type" in h && h["Content-Type"] == "application/json"
    ensures "Authorization" in h <==> token.Some?
    ensures token.Some? ==> h["Authorization"] == "Bearer " + token.value
    ensures forall k :: k in h ==> k == "Content-Type" || k == "Authorization"
  {
    var base := map["Content-Type" := "application/json"];
    if token.Some? then base["Authorization" := "Bearer " + token.value] else base
  }

  /** The call `fetch` receives, given the value stored under `company_auth_token`. */
  function Request<B>(props: ApiProps<B>, stored: Option<string>): (r: FetchRequest<B>)
    ensures r.url == BaseUrl + props.pathname && r.verb == props.verb
    ensures r.body.Some? <==> props.body.Some?
    ensures props.body.Some? ==> r.body == Some(Stringified(props.body.value))
    ensures r.headers == Headers(BearerToken(props.removeTokenFromHeader, stored))
  {
    FetchRequest(
      BaseUrl + props.pathname,
      props.verb,
      Headers(BearerToken(props.removeTokenFromHeader, stored)),
      if props.body.Some? then Some(Stringified(props.body.value)) else None)
  }

  /** The toast shown for an envelope whose status is not 401: one only when
      there is a message, styled by the first true flag among success, error
      and warning. */
  function Notification<T>(data: ApiResponse<T>): (t: Option<Toast>)
    ensures t.Some? <==> Truthy(data.message) && (IsTrue(data.success) || IsTrue(data.error) || IsTrue(data.warning))
    ensures t.Some? ==> t.value.message == data.message
    ensures t.Some? ==> (t.value.kind == SuccessToast <==> IsTrue(data.success))
    ensures t.Some? ==> (t.value.kind == ErrorToast <==> !IsTrue(data.success) && IsTrue(data.error))
    ensures t.Some? ==> (t.value.kind == WarningToast <==>
                           !IsTrue(data.success) && !IsTrue(data.error) && IsTrue(data.warning))
  {
    if !Truthy(data.message) then None
    else if IsTrue(data.success) then Some(Toast(SuccessToast, data.message))
    else if IsTrue(data.error) then Some(Toast(ErrorToast, data.message))
    else if IsTrue(data.warning) then Some(Toast(WarningToast, data.message))
    else None
  }

  /** The toasts for a list that holds at most one. */
  function ToastsOf(t: Option<Toast>): (ts: seq<Toast>)
    ensures |ts| <= 1
    ensures ts == [] <==> t.None?
    ensures ts != [] ==> t == Some(ts[0])
  {
    if t.Some? then [t.value] else []
  }

  /** What one call does, given the stored token, how the transport went and
      whether `Preferences.remove` throws. On 401 the error toast is shown before
      the removal is awaited, so a throwing removal still leaves that toast but
      falls back to the generic envelope and keeps the token. */
  function Call<T>(stored: Option<string>, outcome: Outcome<T>, removeFails: bool): (e: Effects<T>)
    ensures |e.toasts| <= 1
    ensures e.stored != stored ==>
              stored.Some? && e.stored == None && outcome.Decoded?
              && outcome.body.status == Some(401) && !removeFails
    ensures e.response == Fallback() || (outcome.Decoded? && e.response == outcome.body)
  {
    match outcome
    case Threw => Effects(Fallback(), [], stored)
    case Decoded(_, data) =>
      if data.status == Some(401) then
        if removeFails then Effects(Fallback(), [Toast(ErrorToast, data.message)], stored)
        else Effects(data, [Toast(ErrorToast, data.message)], None)
      else Effects(data, ToastsOf(Notification(data)), stored)
  }

  /** The gateway against a preferences store and a toast sink. */
  class Gateway {
    /** The value stored under `company_auth_token`. */
    var token: Option<string>
    /** Every toast shown so far, oldest first. */
    var toasts: seq<Toast>

    constructor (stored: Option<string>)
      ensures token == stored && toasts == []
    {
      token := stored;
      toasts := [];
    }

    /** `api({ pathname, method, body, removeTokenFromHeader })`. Returns the
        request handed to `fetch` (as far as the call gets) and the envelope. */
    method Api<B, T>(props: ApiProps<B>, outcome: Outcome<T>, removeFails: bool)
      returns (sent: FetchRequest<B>, r: ApiResponse<T>)
      modifies this
      ensures sent == Request(props, old(token))
      ensures r == Call(old(token), outcome, removeFails).response
      ensures toasts == old(toasts) + Call(old(token), outcome, removeFails).toasts
      ensures token == Call(old(token), outcome, removeFails).stored
    {
      var value: Option<string> := None;
      if !props.removeTokenFromHeader {
        value := token;
      }
      var bearer := if Truthy(value) then value else None;
      var body := if props.body.Some? then Some(Stringified(props.body.value)) else None;
      sent := FetchRequest(BaseUrl + props.pathname, props.verb, Headers(bearer), body);
      match outcome {
        case Threw =>
          r := Fallback();
        case Decoded(_, data) =>
          if data.status == Some(401) {
            toasts := toasts + [Toast(ErrorToast, data.message)];
            if removeFails {
              r := Fallback();
            } else {
              token := None;
              r := data;
            }
          } else {
            if Truthy(data.message) {
              if IsTrue(data.success) {
                toasts := toasts + [Toast(SuccessToast, data.message)];
              } else if IsTrue(data.error) {
                toasts := toasts + [Toast(ErrorToast, data.message)];
              } else if IsTrue(data.warning) {
                toasts := toasts + [Toast(WarningToast, data.message)];
              }
            }
            r := data;
          }
      }
    }
  }

  /** With `removeTokenFromHeader` set, the store plays no part in the request
      and no `Authorization` header is sent. */
  lemma SuppressedTokenIgnoresStore<B>(props: ApiProps<B>, s1: Option<string>, s2: Option<string>)
    requires props.removeTokenFromHeader
    ensures Request(props, s1) == Request(props, s2)
    ensures "Authorization" !in Request(props, s1).headers
  {
  }

  /** With the flag off, `Authorization: Bearer <token>` is sent exactly when a
      non-empty token is stored; the content type is always JSON. */
  lemma BearerHeaderIff<B>(props: ApiProps<B>, stored: Option<string>)
    requires !props.removeTokenFromHeader
    ensures var h := Request(props, stored).headers;
      ("Authorization" in h <==> stored.Some? && stored.value != "")
      && (stored.Some? && stored.value != "" ==> h["Authorization"] == "Bearer " + stored.value)
      && h["Content-Type"] == "application/json"
  {
  }

  /** Anything that throws before the envelope is decoded yields exactly the
      generic error envelope, with no toast and the token untouched. */
  lemma ThrowIsSilent<T>(stored: Option<string>, removeFails: bool)
    ensures Call(stored, Threw, removeFails)
         == Effects(Fallback<T>(), [], stored)
  {
  }

  /** A decoded status of 401 shows one error toast with the envelope's message
      (even an absent one), removes the token and returns the envelope as it is;
      the flags are not looked at. */
  lemma UnauthorizedEvicts<T>(stored: Option<string>, h: int, data: ApiResponse<T>)
    requires data.status == Some(401)
    ensures Call(stored, Decoded(h, data), false)
         == Effects(data, [Toast(ErrorToast, data.message)], None)
  {
  }

  /** If removing the token throws, the error toast has already been shown; the
      generic envelope is returned and the token stays. */
  lemma UnauthorizedRemovalThrows<T>(stored: Option<string>, h: int, data: ApiResponse<T>)
    requires data.status == Some(401)
    ensures Call(stored, Decoded(h, data), true)
         == Effects(Fallback(), [Toast(ErrorToast, data.message)], stored)
  {
  }

  /** Apart from 401, the envelope is returned unchanged, the token is left
      alone, and at most one toast fires, chosen by success, then error, then
      warning, and only when a non-empty message is present. */
  lemma DecodedNotifies<T>(stored: Option<string>, h: int, data: ApiResponse<T>, removeFails: bool)
    requires data.status != Some(401)
    ensures var e := Call(stored, Decoded(h, data), removeFails);
      e.response == data && e.stored == stored
      && (!Truthy(data.message) ==> e.toasts == [])
      && (Truthy(data.message) && IsTrue(data.success) ==> e.toasts == [Toast(SuccessToast, data.message)])
      && (Truthy(data.message) && !IsTrue(data.success) && IsTrue(data.error) ==>
            e.toasts == [Toast(ErrorToast, data.message)])
      && (Truthy(data.message) && !IsTrue(data.success) && !IsTrue(data.error) && IsTrue(data.warning) ==>
            e.toasts == [Toast(WarningToast, data.message)])
      && (!IsTrue(data.success) && !IsTrue(data.error) && !IsTrue(data.warning) ==> e.toasts == [])
  {
  }

  /** Classification reads the decoded `status`, never the HTTP status. */
  lemma HttpStatusIgnored<T>(stored: Option<string>, h1: int, h2: int, data: ApiResponse<T>, removeFails: bool)
    ensures Call(stored, Decoded(h1, data), removeFails) == Call(stored, Decoded(h2, data), removeFails)
  {
  }

  /** The gateway keeps no cache: the envelope depends only on what the
      transport delivered, not on the stored token or on earlier calls. */
  lemma ResponseIndependentOfStore<T>(s1: Option<string>, s2: Option<string>, outcome: Outcome<T>, removeFails: bool)
    ensures Call(s1, outcome, removeFails).response == Call(s2, outcome, removeFails).response
  {
  }

  /** Two calls in a row: after a 401 has evicted the token, the next request
      carries no `Authorization` header. */
  method EvictionThenRequest<B, T>(g: Gateway, first: ApiProps<B>, second: ApiProps<B>,
                                    h: int, data: ApiResponse<T>, o2: Outcome<T>)
    returns (sent: FetchRequest<B>)
    requires data.status == Some(401)
    modifies g
    ensures "Authorization" !in sent.headers
    ensures |g.toasts| > |old(g.toasts)|
    ensures g.toasts[|old(g.toasts)|] == Toast(ErrorToast, data.message)
  {
    var _, _ := g.Api(first, Decoded(h, data), false);
    assert g.token == None;
    var r2;
    sent, r2 := g.Api(second, o2, false);
  }
}
