/** The HTTP client adapter of the React client (`services/api.js`): the
    response interceptor that turns every transport failure into one message,
    and the guards and defaults of the three calls. The transport itself is a
    parameter: each call receives the reply it would get. */
module Api {
  import opened Wrappers
  import opened Text
  import opened Sessions

  /** The fixed texts of the interceptor and of `postChat`'s guards. */
  datatype Fixed =
    | Timeout | Unreachable | Unexpected
    | ServerError | InternalError | NotFound | BadRequest
    | EmptyQuery | TooLong

  function Message(f: Fixed): (r: string)
    ensures r != []
  {
    match f
    case Timeout => "Request timed out. The server might be overloaded."
    case Unreachable => "Cannot connect to server. Please check if the server is running."
    case Unexpected => "An unexpected error occurred."
    case ServerError => "Server error occurred"
    case InternalError => "Internal server error. Please try again later."
    case NotFound => "Resource not found."
    case BadRequest => "Invalid request. Please check your input."
    case EmptyQuery => "Please enter a research query."
    case TooLong => "Query is too long. Please limit to 1000 characters."
  }

  /** The part of an error response the interceptor looks at: the status and
      the `detail` field of the body. */
  datatype ErrorResponse = ErrorResponse(status: int, detail: Option<string>)

  /** What axios rejects with: an error code, the response if one arrived,
      whether a request went out, and the error's own message. */
  datatype TransportError = TransportError(
    code: Option<string>,
    response: Option<ErrorResponse>,
    requestSent: bool,
    message: Option<string>)

  /** A `detail` a JavaScript condition treats as true: present and non-empty. */
  predicate HasDetail(r: ErrorResponse) {
    r.detail.Some? && r.detail.value != []
  }

  /** The text before the status code in a message about an error response. */
  function StatusText(r: ErrorResponse): string {
    if HasDetail(r) then r.detail.value
    else if r.status >= 500 then Message(InternalError)
    else if r.status == 404 then Message(NotFound)
    else if r.status == 400 then Message(BadRequest)
    else Message(ServerError)
  }

  function StatusSuffix(status: int): string {
    " (" + IntToString(status) + ")"
  }

  /** The response interceptor's error branch: the message of the `Error` it throws. */
  function ErrorMessage(e: TransportError): (r: string)
    ensures r != []
    ensures e.code == Some("ECONNABORTED") ==> r == Message(Timeout)
  {
    if e.code == Some("ECONNABORTED") then Message(Timeout)
    else if e.response.Some? then StatusText(e.response.value) + StatusSuffix(e.response.value.status)
    else if e.requestSent then Message(Unreachable)
    else if e.message.Some? && e.message.value != [] then e.message.value
    else Message(Unexpected)
  }

  /** A response's `detail` is shown in preference to any status-based text. */
  lemma DetailTakesPrecedence(e: TransportError)
    requires e.code != Some("ECONNABORTED") && e.response.Some? && HasDetail(e.response.value)
    ensures ErrorMessage(e) == e.response.value.detail.value + StatusSuffix(e.response.value.status)
  {
  }

  /** Without a detail, the status picks the text: 5xx, 404, 400, anything else. */
  lemma StatusTextWithoutDetail(r: ErrorResponse)
    requires !HasDetail(r)
    ensures r.status >= 500 ==> StatusText(r) == Message(InternalError)
    ensures r.status == 404 ==> StatusText(r) == Message(NotFound)
    ensures r.status == 400 ==> StatusText(r) == Message(BadRequest)
    ensures r.status < 500 && r.status != 404 && r.status != 400 ==> StatusText(r) == Message(ServerError)
  {
  }

  /** With no response: a request that went out could not connect; otherwise the
      error's own message, or the generic one when that is empty. */
  lemma MessageWithoutResponse(e: TransportError)
    requires e.code != Some("ECONNABORTED") && e.response.None?
    ensures e.requestSent ==> ErrorMessage(e) == Message(Unreachable)
    ensures !e.requestSent && e.message.Some? && e.message.value != [] ==> ErrorMessage(e) == e.message.value
    ensures !e.requestSent && (e.message.None? || e.message.value == []) ==> ErrorMessage(e) == Message(Unexpected)
  {
  }

  /** The run of decimal digits at the end of `s`. */
  function TrailingDigits(s: string): (r: string)
    ensures forall i | 0 <= i < |r| :: IsDigit(r[i])
  {
    if s != [] && IsDigit(s[|s| - 1]) then TrailingDigits(s[..|s| - 1]) + [s[|s| - 1]] else []
  }

  /** Reads the status code back from the end of an error message, "... (404)". */
  function StatusOfMessage(m: string): Option<nat> {
    if m != [] && m[|m| - 1] == ')' then
      var digits := TrailingDigits(m[..|m| - 1]);
      if digits == [] then None else Some(ParseNat(digits))
    else None
  }

  lemma {:induction false} TrailingDigitsAfterParen(prefix: string, digits: string)
    requires prefix != [] && prefix[|prefix| - 1] == '('
    requires forall i | 0 <= i < |digits| :: IsDigit(digits[i])
    ensures TrailingDigits(prefix + digits) == digits
  {
    if digits == [] {
      assert prefix + digits == prefix;
    } else {
      var d := digits[..|digits| - 1];
      assert (prefix + digits)[..|prefix + digits| - 1] == prefix + d;
      TrailingDigitsAfterParen(prefix, d);
      assert d + [digits[|digits| - 1]] == digits;
    }
  }

  /** Whatever the text, a message about an error response carries its status
      code, and the code can be read back from the message. */
  lemma {:induction false} StatusRecoverable(e: TransportError)
    requires e.code != Some("ECONNABORTED") && e.response.Some? && e.response.value.status >= 0
    ensures StatusOfMessage(ErrorMessage(e)) == Some(e.response.value.status)
  {
    var status := e.response.value.status;
    var prefix := StatusText(e.response.value) + " (";
    var digits := NatToString(status);
    var m := ErrorMessage(e);
    assert m == prefix + digits + ")";
    assert m[..|m| - 1] == prefix + digits;
    TrailingDigitsAfterParen(prefix, digits);
    NatToStringRoundTrip(status);
  }

  /** Every call rethrows the interceptor's error: failures carry its message. */
  function NormalizeError<T>(reply: Result<T, TransportError>): (r: Result<T, string>)
    ensures r.Success? <==> reply.Success?
    ensures r.Success? ==> r.value == reply.value
    ensures r.Failure? ==> r.error == ErrorMessage(reply.error) && r.error != []
  {
    match reply
    case Success(v) => Success(v)
    case Failure(e) => Failure(ErrorMessage(e))
  }

  /** `getHistory(userId)`: the body, or `[]` when the body is null. */
  function GetHistory(reply: Result<Option<seq<Session>>, TransportError>): (r: Result<seq<Session>, string>)
    ensures reply.Success? && reply.value.None? ==> r == Success([])
    ensures reply.Success? && reply.value.Some? ==> r == Success(reply.value.value)
    ensures reply.Failure? ==> r == Failure(ErrorMessage(reply.error))
  {
    match NormalizeError(reply)
    case Success(body) => Success(body.GetOr([]))
    case Failure(m) => Failure(m)
  }

  const MaxQueryLength := 1000

  /** What `postChat` did: the query it sent, if it sent one, and what it returned. */
  datatype ChatCall = ChatCall(sent: Option<string>, result: Result<ChatReply, string>)

  /** `postChat(userId, query)`: a missing or blank query and one whose
      JavaScript length (UTF-16 code units, counted before trimming) exceeds
      1000 are refused before any request; otherwise the trimmed query is sent
      and the reply passes through. */
  function PostChat(query: Option<string>, reply: Result<ChatReply, TransportError>): (r: ChatCall)
    ensures r.sent.None? <==> query.None? || IsBlank(query.value) || Utf16Length(query.value) > MaxQueryLength
    ensures r.sent.Some? ==> r.sent.value == Trim(query.value) && r.sent.value != [] && r.result == NormalizeError(reply)
    ensures query.None? || IsBlank(query.value) ==> r.result == Failure(Message(EmptyQuery))
    ensures query.Some? && !IsBlank(query.value) && Utf16Length(query.value) > MaxQueryLength ==>
      r.result == Failure(Message(TooLong))
  {
    if query.None? || Trim(query.value) == [] then ChatCall(None, Failure(Message(EmptyQuery)))
    else if Utf16Length(query.value) > MaxQueryLength then ChatCall(None, Failure(Message(TooLong)))
    else ChatCall(Some(Trim(query.value)), NormalizeError(reply))
  }

  /** For a query with visible text, `postChat` either refuses it as too long or
      sends its trim and passes the reply on. */
  lemma PostChatVisible(q: string, reply: Result<ChatReply, TransportError>)
    requires !IsBlank(q)
    ensures PostChat(Some(q), reply)
         == if Utf16Length(q) > MaxQueryLength then ChatCall(None, Failure(Message(TooLong)))
            else ChatCall(Some(Trim(q)), NormalizeError(reply))
  {
  }

  /** The limit is inclusive: 1000 code units are sent, 1001 are not. */
  lemma QueryLengthBoundary(q: string, reply: Result<ChatReply, TransportError>)
    requires !IsBlank(q)
    ensures Utf16Length(q) == 1000 ==> PostChat(Some(q), reply).sent == Some(Trim(q))
    ensures Utf16Length(q) == 1001 ==> PostChat(Some(q), reply).sent.None?
  {
  }

  /** In the Basic Multilingual Plane the limit is 1000 characters; beyond it a
      character counts twice, so 501 of them are already too long. */
  lemma QueryLimitInCharacters(q: string, reply: Result<ChatReply, TransportError>)
    requires !IsBlank(q)
    ensures InBmp(q) ==> (PostChat(Some(q), reply).sent.Some? <==> |q| <= 1000)
    ensures (forall i | 0 <= i < |q| :: q[i] as int > 0xFFFF) && |q| > 500 ==> PostChat(Some(q), reply).sent.None?
  {
    if InBmp(q) {
      Utf16LengthInBmp(q);
    }
    if forall i | 0 <= i < |q| :: q[i] as int > 0xFFFF {
      AllAstralLength(q);
    }
  }

  /** The base URL with one trailing slash removed (`replace(/\/$/, '')`). */
  function StripTrailingSlash(s: string): (r: string)
    ensures s != [] && s[|s| - 1] == '/' ==> r == s[..|s| - 1]
    ensures s == [] || s[|s| - 1] != '/' ==> r == s
  {
    if s != [] && s[|s| - 1] == '/' then s[..|s| - 1] else s
  }
}
