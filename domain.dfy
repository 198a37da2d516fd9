/** The records the bank keeps and the requests it serves. */
module Domain {
  import opened Errs

  datatype Option<T> = None | Some(value: T)

  /** A Go `(value, error)` pair where exactly one of the two is meaningful. */
  datatype Result<T> = Ok(value: T) | Err(error: Error)

  /** A translator applied to a Go `error`: nil stays nil, and a non-nil
      error is never translated to nil. */
  function MapError(err: Option<Error>, translate: Error -> Error): (r: Option<Error>)
    ensures r.None? <==> err.None?
    ensures err.Some? ==> r.value == translate(err.value)
  {
    match err
    case None => None
    case Some(e) => Some(translate(e))
  }

  /** A calendar date in the single time zone of the process. */
  datatype Date = Date(year: int, month: int, day: int)

  /** A point in time: its calendar date and the second within that day. */
  datatype Instant = Instant(date: Date, second: int)

  predicate DateBefore(a: Date, b: Date) {
    a.year < b.year
    || (a.year == b.year && a.month < b.month)
    || (a.year == b.year && a.month == b.month && a.day < b.day)
  }

  /** `a` is at or before `b`. */
  predicate NotAfter(a: Instant, b: Instant) {
    DateBefore(a.date, b.date) || (a.date == b.date && a.second <= b.second)
  }

  /** The currencies the bank provisions and prices; TJS is the base. */
  const TJS: string := "TJS"
  const USD: string := "USD"
  const EUR: string := "EUR"
  const Currencies: seq<string> := [TJS, USD, EUR]

  /** A row of the accounts table; its id is its position plus one. */
  datatype AccountRow = AccountRow(userId: int, currency: string, balance: real, blocked: bool)

  /** domain.Account as the service sees it. The balance travels as text:
      `Some(b)` for a row read from the table, `None` for the empty text of
      a zero-valued account, which does not parse as a number. */
  datatype AccountView = AccountView(id: int, userId: int, currency: string, balance: Option<real>, blocked: bool)

  /** The zero value of domain.Account. */
  const ZeroAccount: AccountView := AccountView(0, 0, "", None, false)

  datatype TxKind = Deposit | Withdraw | Transfer

  /** A row of the transactions log; its id is its position plus one. A
      transfer is logged without a currency (SQL NULL). */
  datatype TxRecord = TxRecord(accountId: int, amount: real, currency: Option<string>, kind: TxKind, createdAt: Instant)

  /** What the history query returns for one log row. */
  datatype HistoryEntry = HistoryEntry(id: int, amount: real, currency: Option<string>, kind: TxKind, createdAt: Instant)

  /** A row of the limits table, keyed by user id. */
  datatype LimitRow = LimitRow(dailyAmount: real, lastReset: Instant)

  /** domain.AdminAuditLog as the service hands it to the repository. */
  datatype AuditEntry = AuditEntry(accountId: int, adminId: int, action: string, reason: string)

  /** A row of the account_audit table. */
  datatype AuditRecord = AuditRecord(accountId: int, adminId: int, action: string, reason: string, createdAt: Instant)

  /** A row of the users table; its id is its position plus one. The
      password is kept only as the hash the service computed. */
  datatype UserRow = UserRow(fullName: string, phone: string, email: string, passwordHash: string, role: string)

  /** domain.User; id 0 is the zero value. */
  datatype User = User(id: int, fullName: string, phone: string, email: string, passwordHash: string, role: string)

  const EmptyUser: User := User(0, "", "", "", "", "")

  /** A row of the cards table. */
  datatype CardRow = CardRow(accountId: int, number: string, holder: string, expiry: Date, cvv: string)

  datatype ReqTransaction = ReqTransaction(amount: real, cardNumber: string, phoneNumber: string, currency: string)

  datatype ReqTransfer = ReqTransfer(
    toCardNumber: string, fromCardNumber: string,
    toPhoneNumber: string, fromPhoneNumber: string,
    amount: real, currency: string)

  datatype ReqRegister = ReqRegister(fullName: string, phone: string, email: string, password: string)
}
