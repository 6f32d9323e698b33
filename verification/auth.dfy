/**
 * The one-shot authorisation of core/auth.py: loading the token file, exchanging
 * the token for a nickname on a fresh connection, and reporting the progress on the
 * GUI's status queue. Also the token file loading that core/sender.py repeats.
 */
module Auth {
  import opened Events
  import Api

  const TOKEN_NOT_FOUND := "Токен не найден. Сначала зарегистрируйтесь (register-minechat-user.py)."
  const TOKEN_UNREADABLE := "Не удалось прочитать токен: "
  const UNKNOWN_TOKEN := "Неизвестный токен. Проверьте его или зарегистрируйте заново."
  const UNKNOWN_NICKNAME := "<unknown>"

  /** The message of the AttributeError `payload.get` raises on a JSON value that is not
      an object. */
  function NoGet(p: Json): string {
    "'" + Api.TypeName(p) + "' object has no attribute 'get'"
  }

  /** The token file as the client finds it: absent, failing to open or to decode as a
      JSON object, or an object with or without an `account_hash` member. */
  datatype TokenFile = Missing | Unreadable(reason: string) | Loaded(accountHash: Option<string>)

  /** `_load_token` (and `_read_token` in the sender): every failure is an InvalidToken;
      an object without `account_hash` yields None, not an error. */
  function LoadToken(file: TokenFile): (r: Result<Option<string>, Failure>)
    ensures r.Failure? <==> !file.Loaded?
    ensures r.Failure? ==> r.error.InvalidToken?
    ensures file == Missing ==> r == Failure(InvalidToken(TOKEN_NOT_FOUND))
    ensures file.Loaded? ==> r == Success(file.accountHash)
  {
    match file
    case Missing => Failure(InvalidToken(TOKEN_NOT_FOUND))
    case Unreadable(e) => Failure(InvalidToken(TOKEN_UNREADABLE + e))
    case Loaded(h) => Success(h)
  }

  /** The text `f"{token}"` writes: a missing `account_hash` is written as `None`. */
  function TokenText(token: Option<string>): string {
    match token
    case Some(t) => t
    case None => "None"
  }

  /** `payload.get("nickname", "<unknown>")` on an object: the member's value, whatever
      its type (`null` among them), or the text `<unknown>` when there is none. */
  function Nickname(members: map<string, Json>): (n: Json)
    ensures "nickname" in members ==> n == members["nickname"]
    ensures "nickname" !in members ==> n == Str(UNKNOWN_NICKNAME)
  {
    if "nickname" in members then members["nickname"] else Str(UNKNOWN_NICKNAME)
  }

  /** What one call of `authorise_or_raise` did: the status events it put, the socket
      operations, its return value or exception, and whether it closed a writer. */
  datatype AuthRun = AuthRun(status: seq<StatusEvent>, io: seq<Io>, result: Result<Json, Failure>, writerClosed: bool)

  /** `authorise_or_raise`. Only the rejection of the token is turned into an exception
      of its own; failures to connect, read or write leave as they are. */
  method AuthoriseOrRaise(file: TokenFile, open: OpenOutcome, inbox: seq<ReadEvent>, parse: string -> Api.Parsed)
    returns (out: AuthRun)
    // a token file that cannot be used stops everything before any event or connection
    ensures !file.Loaded? ==> out == AuthRun([], [], Failure(LoadToken(file).error), false)
    ensures file.Loaded? ==> |out.status| >= 1 && out.status[0] == SendConn(Initiated)
    // the writer is closed on every exit once the connection is open
    ensures out.writerClosed <==> file.Loaded? && open.Opened?
    ensures file.Loaded? && open.OpenFailed? ==>
              out == AuthRun([SendConn(Initiated)], [], Failure(open.failure), false)
    // on an open connection: greeting read, token written once, reply read
    ensures file.Loaded? && open.Opened? ==>
              out.io == Api.Handshake(inbox, 0, TokenText(file.accountHash) + "\n").io
    // an exception from either read leaves as it is, with no CLOSED reported
    ensures file.Loaded? && open.Opened? && |out.io| < 3 ==>
              out.status == [SendConn(Initiated)] &&
              out.result == Failure(Api.Handshake(inbox, 0, TokenText(file.accountHash) + "\n").reply.error)
    // a falsy payload is a rejected token; a truthy one that is not an object has no `get`
    ensures file.Loaded? && open.Opened? && |out.io| == 3 ==>
              var p := Api.Payload(Api.ReadlineText(out.io[2].raw), parse);
              (!Api.Truthy(p) <==> out.result == Failure(InvalidToken(UNKNOWN_TOKEN))) &&
              (!Api.Truthy(p) ==> out.status == [SendConn(Initiated), SendConn(Closed)]) &&
              (Api.Truthy(p) && p.Object? ==> out.result == Success(Nickname(p.members))) &&
              (Api.Truthy(p) && !p.Object? ==>
                 out.result == Failure(OtherFailure(NoGet(p))) && out.status == [SendConn(Initiated)])
    // success: the nickname is announced, then the connection is reported established
    ensures out.result.Success? ==>
              out.status == [SendConn(Initiated), NicknameReceived(out.result.value), SendConn(Established)]
  {
    var loaded := LoadToken(file);
    if loaded.Failure? {
      return AuthRun([], [], Failure(loaded.error), false);
    }
    var token := loaded.value;
    var status := [SendConn(Initiated)];
    var writer := false;
    if open.OpenFailed? {
      return AuthRun(status, [], Failure(open.failure), writer);
    }
    writer := true;
    var x := Api.Handshake(inbox, 0, TokenText(token) + "\n");
    if x.reply.Failure? {
      return AuthRun(status, x.io, Failure(x.reply.error), writer);
    }
    var payload := Api.Payload(x.reply.value, parse);
    if !Api.Truthy(payload) {
      status := status + [SendConn(Closed)];
      return AuthRun(status, x.io, Failure(InvalidToken(UNKNOWN_TOKEN)), writer);
    }
    if !payload.Object? {
      return AuthRun(status, x.io, Failure(OtherFailure(NoGet(payload))), writer);
    }
    var nickname := Nickname(payload.members);
    status := status + [NicknameReceived(nickname)];
    status := status + [SendConn(Established)];
    out := AuthRun(status, x.io, Success(nickname), writer);
  }
}
