/** Error values of the bank.

    A Go `error` is one of: a sentinel declared once and compared by identity
    (the errs package, and database/sql's "no rows" value), an error built
    from a message alone (errors.New, fmt.Errorf without %w), an error that
    wraps others (fmt.Errorf with %w), or a driver error from PostgreSQL.
    `Is` is errors.Is: a sentinel matches itself, a wrapper matches whatever
    one of the errors it wraps matches, nothing else matches a sentinel. */
module Errs {

  /** The sentinels the translators and the funds code refer to. */
  datatype Kind =
    | SqlNoRows
    | UserNotFound | AccountNotFound | UserAlreadyExists | CardAlreadyExists | DatabaseError
    | InvalidCredentials | UserAlreadyRegistered | AccessDenied | AccountBlocked
    | InsufficientFunds | InvalidAmount | DailyLimitExceeded
    | InvalidToken | TokenExpired | RefreshTokenExpired
    | OperationNotAllowed | InvalidOperation

  datatype Error =
    | Sentinel(kind: Kind)
    | Plain(msg: string)
    | Wrapped(msg: string, inner: seq<Error>)
    | Postgres(code: string, message: string, detail: string, column: string)

  const NoRowsText: string := "sql: no rows in result set"

  /** The message of each sentinel. */
  function KindText(k: Kind): string {
    match k
    case SqlNoRows => NoRowsText
    case UserNotFound => "user not found"
    case AccountNotFound => "account not found"
    case UserAlreadyExists => "user already exists"
    case CardAlreadyExists => "card already exists"
    case DatabaseError => "database operation failed"
    case InvalidCredentials => "invalid email or password"
    case UserAlreadyRegistered => "user already registered"
    case AccessDenied => "access denied"
    case AccountBlocked => "account is blocked"
    case InsufficientFunds => "insufficient funds"
    case InvalidAmount => "amount must be greater than zero"
    case DailyLimitExceeded => "daily limit exceeded"
    case InvalidToken => "invalid token"
    case TokenExpired => "token has expired"
    case RefreshTokenExpired => "refresh token has expired"
    case OperationNotAllowed => "operation not allowed"
    case InvalidOperation => "invalid operation"
  }

  /** err.Error(): a wrapper's message is already the formatted text; the
      PostgreSQL driver prefixes its message with "pq: ". */
  function Text(e: Error): string {
    match e
    case Sentinel(k) => KindText(k)
    case Plain(m) => m
    case Wrapped(m, _) => m
    case Postgres(_, m, _, _) => "pq: " + m
  }

  /** The sentinels an error is: itself if it is one, and those of every
      error it wraps. */
  function Kinds(e: Error): set<Kind>
    decreases e
  {
    match e
    case Sentinel(k) => {k}
    case Wrapped(_, inner) => KindsOf(inner)
    case Plain(_) => {}
    case Postgres(_, _, _, _) => {}
  }

  /** The sentinels any of `errors` is. */
  function KindsOf(errors: seq<Error>): set<Kind>
    decreases errors
  {
    if errors == [] then {} else Kinds(errors[0]) + KindsOf(errors[1..])
  }

  /** errors.Is(e, k). */
  predicate Is(e: Error, k: Kind) {
    k in Kinds(e)
  }

  /** A wrapper around one error is exactly what that error is. */
  lemma IsThroughOneWrap(msg: string, inner: Error, k: Kind)
    ensures Is(Wrapped(msg, [inner]), k) <==> Is(inner, k)
  {
    assert [inner][0] == inner && [inner][1..] == [];
    assert KindsOf([inner]) == Kinds(inner) + KindsOf([]);
  }

  /** The value of the first row of `table` whose sentinel `e` is, in table
      order, or `otherwise`: the shape of a Go
      `switch { case errors.Is(e, ...): ... default: ... }`. */
  function FirstMatch<T>(table: seq<(Kind, T)>, e: Error, otherwise: T): T
    decreases |table|
  {
    if table == [] then otherwise
    else if Is(e, table[0].0) then table[0].1
    else FirstMatch(table[1..], e, otherwise)
  }
}
