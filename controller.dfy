/** The HTTP edge: the controller's translation of service errors into a
    status and message, and the decision chain of the authentication
    middleware (a simplified form of the Bearer scheme of section 2.1 of
    RFC 6750: exactly "Bearer", one space, and a token without spaces). */
module Controller {
  import opened Errs
  import opened Domain
  import RepositoryErrors
  import ServiceErrors

  /** What translateError writes: nothing, or one JSON error reply. */
  datatype Reply = NoReply | Reply(status: int, message: string)

  const InternalError: Reply := Reply(500, "Internal server error")


  /** The status each sentinel gets when it is returned alone. */
  function ExpectedStatus(k: Kind): int {
    match k
    case DatabaseError => 500
    case InvalidCredentials | InvalidToken | TokenExpired | RefreshTokenExpired => 401
    case UserAlreadyRegistered => 409
    case AccessDenied | AccountBlocked => 403
    case InsufficientFunds | InvalidAmount | DailyLimitExceeded | OperationNotAllowed => 400
    case _ => 500
  }

  /** The status of the first case of translateError's switch that the
      error matches (500 for the default case). */
  function Status(e: Error): int {
    if Is(e, DatabaseError) then 500
    else if Is(e, InvalidCredentials) then 401
    else if Is(e, UserAlreadyRegistered) then 409
    else if Is(e, AccessDenied) then 403
    else if Is(e, AccountBlocked) then 403
    else if Is(e, InsufficientFunds) then 400
    else if Is(e, InvalidAmount) then 400
    else if Is(e, DailyLimitExceeded) then 400
    else if Is(e, InvalidToken) then 401
    else if Is(e, TokenExpired) then 401
    else if Is(e, RefreshTokenExpired) then 401
    else if Is(e, OperationNotAllowed) then 400
    else 500
  }

  /** The message of the same case. */
  function Message(e: Error): string {
    if Is(e, DatabaseError) then "Database error"
    else if Is(e, InvalidCredentials) then "Invalid credentials"
    else if Is(e, UserAlreadyRegistered) then "User already exists"
    else if Is(e, AccessDenied) then "Access denied"
    else if Is(e, AccountBlocked) then "Account is blocked"
    else if Is(e, InsufficientFunds) then "Insufficient funds"
    else if Is(e, InvalidAmount) then "Invalid amount"
    else if Is(e, DailyLimitExceeded) then "Daily limit exceeded"
    else if Is(e, InvalidToken) then "Invalid token"
    else if Is(e, TokenExpired) then "Token expired"
    else if Is(e, RefreshTokenExpired) then "Refresh token expired"
    else if Is(e, OperationNotAllowed) then "Operation not allowed"
    else "Internal server error"
  }

  /** translateError: no reply for nil; otherwise the status and message of
      the first case of the switch the error matches. */
  function TranslateError(err: Option<Error>): (r: Reply)
    ensures r.NoReply? <==> err.None?
    ensures r.Reply? ==> r.status in {400, 401, 403, 409, 500}
    ensures r.Reply? ==> (r.status == 500 <==> r.message in {"Database error", "Internal server error"})
  {
    match err
    case None => NoReply
    case Some(e) => Reply(Status(e), Message(e))
  }

  /** Nil gets no reply, every error gets one of five statuses, a database
      error always gets 500, and a status other than 500 is given only to an
      error that is one of the sentinels the switch names. */
  lemma ReplyClasses(err: Option<Error>)
    ensures TranslateError(err).NoReply? <==> err.None?
    ensures TranslateError(err).Reply? ==> TranslateError(err).status in {400, 401, 403, 409, 500}
    ensures err.Some? && Is(err.value, DatabaseError) ==> TranslateError(err) == Reply(500, "Database error")
    ensures TranslateError(err).Reply? && TranslateError(err).status != 500 ==>
      Is(err.value, InvalidCredentials) || Is(err.value, UserAlreadyRegistered) || Is(err.value, AccessDenied)
      || Is(err.value, AccountBlocked) || Is(err.value, InsufficientFunds) || Is(err.value, InvalidAmount)
      || Is(err.value, DailyLimitExceeded) || Is(err.value, InvalidToken) || Is(err.value, TokenExpired)
      || Is(err.value, RefreshTokenExpired) || Is(err.value, OperationNotAllowed)
  {
  }

  /** Each sentinel on its own gets the status the controller's tests
      list for it; the ones the switch does not name get 500. */
  lemma SentinelStatus(k: Kind)
    ensures TranslateError(Some(Sentinel(k))).status == ExpectedStatus(k)
  {
    match k
    case SqlNoRows => InternalSentinels(k);
    case UserNotFound => InternalSentinels(k);
    case AccountNotFound => InternalSentinels(k);
    case UserAlreadyExists => UnnamedSentinels(k);
    case CardAlreadyExists => UnnamedSentinels(k);
    case DatabaseError => InternalSentinels(k);
    case InvalidCredentials => UnauthorizedSentinels(k);
    case UserAlreadyRegistered => ConflictAndForbiddenSentinels(k);
    case AccessDenied => ConflictAndForbiddenSentinels(k);
    case AccountBlocked => ConflictAndForbiddenSentinels(k);
    case InsufficientFunds => BadRequestSentinels(k);
    case InvalidAmount => BadRequestSentinels(k);
    case DailyLimitExceeded => BadRequestSentinels(k);
    case InvalidToken => UnauthorizedSentinels(k);
    case TokenExpired => UnauthorizedSentinels(k);
    case RefreshTokenExpired => UnauthorizedSentinels(k);
    case OperationNotAllowed => BadRequestSentinels(k);
    case InvalidOperation => UnnamedSentinels(k);
  }

  lemma UnauthorizedSentinels(k: Kind)
    requires k == InvalidCredentials || k == InvalidToken || k == TokenExpired || k == RefreshTokenExpired
    ensures TranslateError(Some(Sentinel(k))).status == 401
  {
  }

  lemma BadRequestSentinels(k: Kind)
    requires k == InsufficientFunds || k == InvalidAmount || k == DailyLimitExceeded || k == OperationNotAllowed
    ensures TranslateError(Some(Sentinel(k))).status == 400
  {
  }

  lemma ConflictAndForbiddenSentinels(k: Kind)
    requires k == UserAlreadyRegistered || k == AccessDenied || k == AccountBlocked
    ensures TranslateError(Some(Sentinel(k))).status == (if k == UserAlreadyRegistered then 409 else 403)
  {
  }

  /** The database sentinel, and the repository's sentinels that the
      controller does not name, are 500. */
  lemma InternalSentinels(k: Kind)
    requires k == DatabaseError || k == SqlNoRows || k == UserNotFound || k == AccountNotFound
    ensures TranslateError(Some(Sentinel(k))).status == 500
  {
  }

  lemma UnnamedSentinels(k: Kind)
    requires k == UserAlreadyExists || k == CardAlreadyExists || k == InvalidOperation
    ensures TranslateError(Some(Sentinel(k))) == InternalError
  {
  }

  /** An error that is several sentinels gets the reply of the earliest
      case: a database failure outranks invalid credentials. */
  lemma EarliestCaseWins()
    ensures TranslateError(Some(Wrapped("login failed", [Sentinel(InvalidCredentials), Sentinel(DatabaseError)])))
         == Reply(500, "Database error")
  {
    var e := Wrapped("login failed", [Sentinel(InvalidCredentials), Sentinel(DatabaseError)]);
    assert Is(e.inner[1], DatabaseError);
  }

  /** An error built from a message alone is no sentinel, whatever its
      text: translateError gives even "account is blocked" or "insufficient
      funds" the default 500 reply, not 403 or 400. */
  lemma MessageErrorsAreInternal(msg: string)
    ensures TranslateError(Some(Plain(msg))) == InternalError
  {
  }

  /** Through all three layers, a database failure that is neither "no
      rows" nor a PostgreSQL error is a 500 "Database error". */
  lemma UnclassifiedFailureIsDatabaseError(e: Error)
    requires !e.Postgres? && Text(e) != NoRowsText
    ensures TranslateError(Some(ServiceErrors.Translate(RepositoryErrors.Translate(e)))) == Reply(500, "Database error")
  {
    ServiceErrors.UnclassifiedDatabaseErrorSurvives(e);
  }

  /** Through all three layers, "no rows" is a 401. */
  lemma MissingRowIsUnauthorized(e: Error)
    requires Text(e) == NoRowsText
    ensures TranslateError(Some(ServiceErrors.Translate(RepositoryErrors.Translate(e)))) == Reply(401, "Invalid credentials")
  {
    ServiceErrors.MissingUserIsInvalidCredentials(e);
  }

  /** Through the service and the controller, a duplicate of a field the
      detail does not name is a 409. */
  lemma DuplicateUnnamedIsConflict(detail: string)
    requires RepositoryErrors.UniqueViolationError(detail) == Sentinel(UserAlreadyExists)
    ensures TranslateError(Some(ServiceErrors.Translate(RepositoryErrors.UniqueViolationError(detail))))
         == Reply(409, "User already exists")
  {
  }

  /** A duplicate email or phone (a message error) and a duplicate card
      number (mapped to "invalid operation", which the controller does not
      name) are a 500 "Internal server error". */
  lemma DuplicateNamedIsInternal(detail: string)
    requires RepositoryErrors.UniqueViolationError(detail) != Sentinel(UserAlreadyExists)
    ensures TranslateError(Some(ServiceErrors.Translate(RepositoryErrors.UniqueViolationError(detail)))) == InternalError
  {
    var u := RepositoryErrors.UniqueViolationError(detail);
    assert u == Plain(RepositoryErrors.EmailTakenText) || u == Plain(RepositoryErrors.PhoneTakenText)
        || u == Sentinel(CardAlreadyExists);
  }

  // ---------------------------------------------------------------------
  // The authentication middleware
  // ---------------------------------------------------------------------

  const HeaderRequiredText: string := "Authorization header is required"
  const HeaderFormatText: string := "Authorization header format must be Bearer {token}"
  const InvalidTokenText: string := "invalid token"
  const InsufficientPermissionsText: string := "insufficient permissions"

  /** strings.Split(s, " "): the pieces between spaces, in order. */
  function Split(s: string): (parts: seq<string>)
    ensures |parts| >= 1
    decreases |s|
  {
    if s == [] then [""]
    else
      var rest := Split(s[1..]);
      if s[0] == ' ' then [""] + rest else [[s[0]] + rest[0]] + rest[1..]
  }

  /** strings.Join(parts, " "). */
  function Join(parts: seq<string>): string
    requires |parts| >= 1
    decreases |parts|
  {
    if |parts| == 1 then parts[0] else parts[0] + " " + Join(parts[1..])
  }

  /** Splitting and joining again gives the header back, and no piece
      holds a space. */
  lemma {:induction false} JoinSplit(s: string)
    ensures Join(Split(s)) == s
    ensures forall i | 0 <= i < |Split(s)| :: ' ' !in Split(s)[i]
    decreases |s|
  {
    if s != [] {
      var rest := Split(s[1..]);
      JoinSplit(s[1..]);
      if s[0] == ' ' {
        assert ([""] + rest)[1..] == rest;
      } else {
        var parts := [[s[0]] + rest[0]] + rest[1..];
        if |rest| == 1 {
          assert s == [s[0]] + s[1..];
        } else {
          assert parts[1..] == rest[1..];
          assert Join(rest) == rest[0] + " " + Join(rest[1..]);
          assert s == [s[0]] + s[1..];
        }
        forall i | 0 <= i < |parts|
          ensures ' ' !in parts[i]
        {
          if i > 0 {
            assert parts[i] == rest[i];
          }
        }
      }
    }
  }

  /** A word without spaces, then a space, then the rest, splits into the
      word followed by the pieces of the rest. */
  lemma {:induction false} SplitAfterWord(word: string, rest: string)
    requires ' ' !in word
    ensures Split(word + " " + rest) == [word] + Split(rest)
    decreases |word|
  {
    if word == [] {
      assert word + " " + rest == [' '] + rest;
      assert (word + " " + rest)[1..] == rest;
    } else {
      var s := word + " " + rest;
      assert s[1..] == word[1..] + " " + rest;
      SplitAfterWord(word[1..], rest);
      assert [word[0]] + word[1..] == word;
    }
  }

  /** A string without spaces is one piece. */
  lemma {:induction false} SplitWithoutSpace(s: string)
    requires ' ' !in s
    ensures Split(s) == [s]
    decreases |s|
  {
    if s != [] {
      assert ' ' !in s[1..] by {
        forall i | 0 <= i < |s[1..]|
          ensures s[1..][i] != ' '
        {
          assert s[1..][i] == s[i + 1];
        }
      }
      SplitWithoutSpace(s[1..]);
      assert [s[0]] + s[1..] == s;
    }
  }

  /** The middleware's verdict on one request. */
  datatype Decision = Abort(status: int, message: string) | Proceed(user: User)

  /** AuthMiddleware(requiredRole) applied to a request whose Authorization
      header is `header`; `parseToken` is the service's token parser. */
  function AuthMiddleware(requiredRole: string, header: string, parseToken: string -> Result<User>): (d: Decision)
    ensures header == "" ==> d == Abort(401, HeaderRequiredText)
    ensures d.Abort? ==> d.status == 401 || (d.status == 403 && d.message == InsufficientPermissionsText)
    ensures d.Proceed? ==>
      && |header| >= 7 && header[..7] == "Bearer " && ' ' !in header[7..]
      && parseToken(header[7..]) == Ok(d.user)
      && (requiredRole == "" || d.user.role == requiredRole)
  {
    if header == "" then Abort(401, HeaderRequiredText)
    else
      var parts := Split(header);
      if |parts| != 2 || parts[0] != "Bearer" then Abort(401, HeaderFormatText)
      else
        JoinSplit(header);
        assert header == "Bearer " + parts[1];
        assert header[7..] == parts[1];
        match parseToken(parts[1])
        case Err(_) => Abort(401, InvalidTokenText)
        case Ok(user) =>
          if requiredRole != "" && user.role != requiredRole then Abort(403, InsufficientPermissionsText)
          else Proceed(user)
  }

  /** Conversely, "Bearer " and a token without spaces always reaches the
      parser, and the parser's answer and the role decide the rest. */
  lemma BearerTokenReachesParser(requiredRole: string, token: string, parseToken: string -> Result<User>)
    requires ' ' !in token
    ensures AuthMiddleware(requiredRole, "Bearer " + token, parseToken) ==
      match parseToken(token)
      case Err(_) => Abort(401, InvalidTokenText)
      case Ok(user) =>
        if requiredRole != "" && user.role != requiredRole then Abort(403, InsufficientPermissionsText)
        else Proceed(user)
  {
    assert "Bearer " + token == "Bearer" + " " + token;
    SplitAfterWord("Bearer", token);
    SplitWithoutSpace(token);
    assert Split("Bearer " + token) == ["Bearer", token];
  }

  /** A header with another scheme, or with a second space, is refused as
      malformed before any token is parsed. */
  lemma MalformedHeaderRefused(requiredRole: string, token: string, parseToken: string -> Result<User>)
    ensures AuthMiddleware(requiredRole, "Token " + token, parseToken) == Abort(401, HeaderFormatText)
    ensures AuthMiddleware(requiredRole, "Bearer  " + token, parseToken) == Abort(401, HeaderFormatText)
  {
    assert "Token " + token == "Token" + " " + token;
    SplitAfterWord("Token", token);
    assert Split("Token " + token)[0] == "Token" != "Bearer";
    assert "Bearer  " + token == "Bearer" + " " + (" " + token);
    assert " " + token == "" + " " + token;
    SplitAfterWord("Bearer", " " + token);
    SplitAfterWord("", token);
    assert |Split("Bearer  " + token)| >= 3;
  }
}
