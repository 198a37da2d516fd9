/** The storage layer: the bank's tables as one state object, and each
    repository function as one atomic step on it. A step either applies all
    of its writes or none (the begin / rollback / commit of the source). */
module Repository {
  import opened Errs
  import opened Domain

  const DepositNotFoundText: string := "account not found or could not update balance"
  const WithdrawNotFoundText: string := "account not found or currency mismatch"
  const TransferInsufficientText: string := "недостаточно средств на счёте"
  const BlockNotFoundText: string := "account not found"
  /** What database/sql answers when a NULL `currency` column is scanned
      into a Go string: column 1 of the usage query, column 2 of the
      history query. */
  const UsageScanText: string := "sql: Scan error on column index 1, name \"currency\": converting NULL to string is unsupported"
  const HistoryScanText: string := "sql: Scan error on column index 2, name \"currency\": converting NULL to string is unsupported"

  // ---------------------------------------------------------------------
  // Functions over the tables
  // ---------------------------------------------------------------------

  /** `UPDATE accounts SET balance = balance + delta WHERE id = id`. */
  function AdjustBalance(rows: seq<AccountRow>, id: int, delta: real): (r: seq<AccountRow>)
    ensures |r| == |rows|
  {
    if 1 <= id <= |rows| then rows[id - 1 := rows[id - 1].(balance := rows[id - 1].balance + delta)] else rows
  }

  /** The sum of all balances. */
  function Total(rows: seq<AccountRow>): real {
    if rows == [] then 0.0 else rows[0].balance + Total(rows[1..])
  }

  lemma {:induction false} TotalUpdate(rows: seq<AccountRow>, k: nat, b: real)
    requires k < |rows|
    ensures Total(rows[k := rows[k].(balance := b)]) == Total(rows) - rows[k].balance + b
  {
    if k > 0 {
      assert rows[k := rows[k].(balance := b)][1..] == rows[1..][k - 1 := rows[1..][k - 1].(balance := b)];
      TotalUpdate(rows[1..], k - 1, b);
    }
  }

  /** Changing one balance changes the total by the same amount, and by
      nothing when no row has that id. */
  lemma {:induction false} TotalAdjust(rows: seq<AccountRow>, id: int, delta: real)
    ensures Total(AdjustBalance(rows, id, delta)) == Total(rows) + (if 1 <= id <= |rows| then delta else 0.0)
  {
    if 1 <= id <= |rows| {
      var b := rows[id - 1].balance + delta;
      assert AdjustBalance(rows, id, delta) == rows[id - 1 := rows[id - 1].(balance := b)];
      TotalUpdate(rows, id - 1, b);
    } else {
      assert AdjustBalance(rows, id, delta) == rows;
    }
  }

  /** The account behind account id `id`, as the service sees it. */
  function ViewOf(rows: seq<AccountRow>, id: int): AccountView
    requires 1 <= id <= |rows|
  {
    AccountView(id, rows[id - 1].userId, rows[id - 1].currency, Some(rows[id - 1].balance), rows[id - 1].blocked)
  }

  /** Card `c` joins an account in `currency` whose card number is `number`. */
  predicate CardJoins(c: CardRow, accounts: seq<AccountRow>, number: string, currency: string) {
    c.number == number && 1 <= c.accountId <= |accounts| && accounts[c.accountId - 1].currency == currency
  }

  /** The first card row of the join `cards JOIN accounts` with that number
      and currency. */
  function FirstCardJoin(cards: seq<CardRow>, accounts: seq<AccountRow>, number: string, currency: string): (r: Option<nat>)
    ensures r.Some? ==> r.value < |cards| && CardJoins(cards[r.value], accounts, number, currency)
    ensures r.None? ==> forall k | 0 <= k < |cards| :: !CardJoins(cards[k], accounts, number, currency)
    decreases |cards|
  {
    if cards == [] then None
    else if CardJoins(cards[0], accounts, number, currency) then Some(0)
    else match FirstCardJoin(cards[1..], accounts, number, currency)
      case None => None
      case Some(k) => Some(k + 1)
  }

  /** Account `k` belongs to a user with that phone and is held in `currency`. */
  predicate PhoneJoins(accounts: seq<AccountRow>, users: seq<UserRow>, k: nat, phone: string, currency: string)
    requires k < |accounts|
  {
    var a := accounts[k];
    a.currency == currency && 1 <= a.userId <= |users| && users[a.userId - 1].phone == phone
  }

  /** The first account row of the join `accounts JOIN users` with that
      phone and currency, searching from row `from`. */
  function FirstPhoneJoin(accounts: seq<AccountRow>, users: seq<UserRow>, phone: string, currency: string, from: nat): (r: Option<nat>)
    requires from <= |accounts|
    ensures r.Some? ==> from <= r.value < |accounts| && PhoneJoins(accounts, users, r.value, phone, currency)
    ensures r.None? ==> forall k | from <= k < |accounts| :: !PhoneJoins(accounts, users, k, phone, currency)
    decreases |accounts| - from
  {
    if from == |accounts| then None
    else if PhoneJoins(accounts, users, from, phone, currency) then Some(from)
    else FirstPhoneJoin(accounts, users, phone, currency, from + 1)
  }

  /** The amount a log row weighs in TJS: the repository's own rate table,
      where an unknown currency counts as TJS. A row with no currency never
      reaches it: its scan fails first (`UsageScanFails`). */
  function UsageRate(currency: Option<string>): real {
    if currency == Some(TJS) then 1.0
    else if currency == Some(USD) then 9.21
    else if currency == Some(EUR) then 10.72
    else 1.0
  }

  /** Log row `t` is a withdrawal or transfer, dated `today`, on an account
      of `userId`. */
  predicate CountsToday(t: TxRecord, accounts: seq<AccountRow>, userId: int, today: Date) {
    t.kind != Deposit && t.createdAt.date == today
    && 1 <= t.accountId <= |accounts| && accounts[t.accountId - 1].userId == userId
  }

  /** What `userId` has spent on `today`, in TJS. */
  function TodayUsage(log: seq<TxRecord>, accounts: seq<AccountRow>, userId: int, today: Date): real {
    if log == [] then 0.0
    else
      var t := log[|log| - 1];
      TodayUsage(log[..|log| - 1], accounts, userId, today)
      + (if CountsToday(t, accounts, userId, today) then t.amount * UsageRate(t.currency) else 0.0)
  }

  /** A row the usage query selects has no currency, so the query fails. */
  predicate UsageScanFails(log: seq<TxRecord>, accounts: seq<AccountRow>, userId: int, today: Date) {
    exists k | 0 <= k < |log| :: CountsToday(log[k], accounts, userId, today) && log[k].currency.None?
  }

  /** Log row `t` is on an account of `userId`. */
  predicate OwnedBy(t: TxRecord, accounts: seq<AccountRow>, userId: int) {
    1 <= t.accountId <= |accounts| && accounts[t.accountId - 1].userId == userId
  }

  /** The history of `userId`: the log rows on that user's accounts, the
      latest-written first. */
  function History(log: seq<TxRecord>, accounts: seq<AccountRow>, userId: int): seq<HistoryEntry> {
    if log == [] then []
    else
      var t := log[|log| - 1];
      (if OwnedBy(t, accounts, userId) then [HistoryEntry(|log|, t.amount, t.currency, t.kind, t.createdAt)] else [])
      + History(log[..|log| - 1], accounts, userId)
  }

  /** A row the history query selects has no currency, so the query fails. */
  predicate HistoryScanFails(log: seq<TxRecord>, accounts: seq<AccountRow>, userId: int) {
    exists k | 0 <= k < |log| :: OwnedBy(log[k], accounts, userId) && log[k].currency.None?
  }

  function Reverse<T>(s: seq<T>): (r: seq<T>)
    ensures |r| == |s|
  {
    if s == [] then [] else Reverse(s[1..]) + [s[0]]
  }

  lemma {:induction false} ReverseAt<T>(s: seq<T>, k: nat)
    requires k < |s|
    ensures Reverse(s)[k] == s[|s| - 1 - k]
  {
    if k < |s| - 1 {
      ReverseAt(s[1..], k);
    }
  }

  /** Rows are written in time order: no row is dated after a later one. */
  predicate Chronological(log: seq<TxRecord>) {
    forall i, j | 0 <= i < j < |log| :: NotAfter(log[i].createdAt, log[j].createdAt)
  }

  /** No row is dated after `now`. */
  predicate WrittenBy(log: seq<TxRecord>, now: Instant) {
    forall k | 0 <= k < |log| :: NotAfter(log[k].createdAt, now)
  }

  predicate AuditChronological(audit: seq<AuditRecord>) {
    forall i, j | 0 <= i < j < |audit| :: NotAfter(audit[i].createdAt, audit[j].createdAt)
  }

  /** Every history entry is log row `id - 1` of a row on the user's accounts. */
  lemma {:induction false} HistoryEntriesFromLog(log: seq<TxRecord>, accounts: seq<AccountRow>, userId: int, n: nat)
    requires n < |History(log, accounts, userId)|
    ensures var e := History(log, accounts, userId)[n];
      1 <= e.id <= |log| && OwnedBy(log[e.id - 1], accounts, userId)
      && e == HistoryEntry(e.id, log[e.id - 1].amount, log[e.id - 1].currency, log[e.id - 1].kind, log[e.id - 1].createdAt)
  {
    var t := log[|log| - 1];
    var rest := History(log[..|log| - 1], accounts, userId);
    if OwnedBy(t, accounts, userId) {
      if n > 0 {
        HistoryEntriesFromLog(log[..|log| - 1], accounts, userId, n - 1);
      }
    } else {
      HistoryEntriesFromLog(log[..|log| - 1], accounts, userId, n);
    }
  }

  /** Every row on the user's accounts is listed, under its own id. */
  lemma {:induction false} HistoryComplete(log: seq<TxRecord>, accounts: seq<AccountRow>, userId: int, k: nat)
    requires k < |log| && OwnedBy(log[k], accounts, userId)
    ensures exists n | 0 <= n < |History(log, accounts, userId)| :: History(log, accounts, userId)[n].id == k + 1
  {
    var prefix := log[..|log| - 1];
    var h := History(log, accounts, userId);
    if k == |log| - 1 {
      assert h[0].id == k + 1;
    } else {
      assert log[k] == prefix[k];
      HistoryComplete(prefix, accounts, userId, k);
      var rest := History(prefix, accounts, userId);
      var n :| 0 <= n < |rest| && rest[n].id == k + 1;
      var shift := if OwnedBy(log[|log| - 1], accounts, userId) then 1 else 0;
      assert h[n + shift] == rest[n];
    }
  }

  /** Entries are listed by strictly decreasing id: the latest row first. */
  lemma {:induction false} HistoryIdsDecrease(log: seq<TxRecord>, accounts: seq<AccountRow>, userId: int, m: nat, n: nat)
    requires m < n < |History(log, accounts, userId)|
    ensures History(log, accounts, userId)[n].id < History(log, accounts, userId)[m].id
  {
    var t := log[|log| - 1];
    var prefix := log[..|log| - 1];
    if OwnedBy(t, accounts, userId) {
      if m == 0 {
        HistoryEntriesFromLog(prefix, accounts, userId, n - 1);
      } else {
        HistoryIdsDecrease(prefix, accounts, userId, m - 1, n - 1);
      }
    } else {
      HistoryIdsDecrease(prefix, accounts, userId, m, n);
    }
  }

  /** With the log written in time order, the history is newest first. */
  lemma HistoryNewestFirst(log: seq<TxRecord>, accounts: seq<AccountRow>, userId: int, m: nat, n: nat)
    requires Chronological(log)
    requires m < n < |History(log, accounts, userId)|
    ensures NotAfter(History(log, accounts, userId)[n].createdAt, History(log, accounts, userId)[m].createdAt)
  {
    var h := History(log, accounts, userId);
    HistoryEntriesFromLog(log, accounts, userId, m);
    HistoryEntriesFromLog(log, accounts, userId, n);
    HistoryIdsDecrease(log, accounts, userId, m, n);
    assert NotAfter(log[h[n].id - 1].createdAt, log[h[m].id - 1].createdAt);
  }

  /** With the audit table written in time order, reading it back to front
      lists the newest row first. */
  lemma AuditNewestFirst(audit: seq<AuditRecord>, m: nat, n: nat)
    requires AuditChronological(audit)
    requires m < n < |audit|
    ensures NotAfter(Reverse(audit)[n].createdAt, Reverse(audit)[m].createdAt)
  {
    ReverseAt(audit, m);
    ReverseAt(audit, n);
  }

  // ---------------------------------------------------------------------
  // The state object
  // ---------------------------------------------------------------------

  class Store {
    var accounts: seq<AccountRow>
    var users: seq<UserRow>
    var cards: seq<CardRow>
    var log: seq<TxRecord>
    var limits: map<int, LimitRow>
    var audit: seq<AuditRecord>

    constructor ()
      ensures accounts == [] && users == [] && cards == [] && log == [] && limits == map[] && audit == []
    {
      accounts, users, cards, log, limits, audit := [], [], [], [], map[], [];
    }

    /** Only the account balances and the transactions log may have changed. */
    twostate predicate OnlyLedgerChanged()
      reads this
    {
      users == old(users) && cards == old(cards) && limits == old(limits) && audit == old(audit)
    }

    /** GetAccountByCardNumber: the account that card `number` is issued on,
        provided it is held in `currency`; "no rows" otherwise. */
    function AccountByCard(number: string, currency: string): (r: Result<AccountView>)
      reads this
      ensures r.Ok? ==> exists k | 0 <= k < |cards| :: CardJoins(cards[k], accounts, number, currency)
                                                       && r.value == ViewOf(accounts, cards[k].accountId)
      ensures r.Ok? ==> r.value.currency == currency && 1 <= r.value.id <= |accounts|
      ensures r.Err? <==> forall k | 0 <= k < |cards| :: !CardJoins(cards[k], accounts, number, currency)
      ensures r.Err? ==> r.error == Sentinel(SqlNoRows)
    {
      match FirstCardJoin(cards, accounts, number, currency)
      case None => Err(Sentinel(SqlNoRows))
      case Some(k) => Ok(ViewOf(accounts, cards[k].accountId))
    }

    /** GetAccountByPhoneNumber: an account in `currency` of the user with
        that phone; "no rows" otherwise. */
    function AccountByPhone(phone: string, currency: string): (r: Result<AccountView>)
      reads this
      ensures r.Ok? ==> 1 <= r.value.id <= |accounts| && PhoneJoins(accounts, users, r.value.id - 1, phone, currency)
                        && r.value == ViewOf(accounts, r.value.id)
      ensures r.Ok? ==> r.value.currency == currency
      ensures r.Err? <==> forall k | 0 <= k < |accounts| :: !PhoneJoins(accounts, users, k, phone, currency)
      ensures r.Err? ==> r.error == Sentinel(SqlNoRows)
    {
      match FirstPhoneJoin(accounts, users, phone, currency, 0)
      case None => Err(Sentinel(SqlNoRows))
      case Some(k) => Ok(ViewOf(accounts, k + 1))
    }

    /** GetDailyLimitByUserID. */
    function DailyLimitByUserId(userId: int): (r: Result<LimitRow>)
      reads this
      ensures r.Ok? <==> userId in limits
      ensures r.Ok? ==> r.value == limits[userId]
      ensures r.Err? ==> r.error == Sentinel(SqlNoRows)
    {
      if userId in limits then Ok(limits[userId]) else Err(Sentinel(SqlNoRows))
    }

    /** DepositToAccount: credit `amount` and log a deposit in the account's
        own currency; an unknown id fails and writes nothing. */
    method DepositToAccount(accountId: int, amount: real, now: Instant) returns (err: Option<Error>)
      modifies this
      ensures err.None? <==> 1 <= accountId <= old(|accounts|)
      ensures err.Some? ==> err == Some(Plain(DepositNotFoundText)) && unchanged(this)
      ensures err.None? ==>
        && accounts == AdjustBalance(old(accounts), accountId, amount)
        && log == old(log) + [TxRecord(accountId, amount, Some(old(accounts)[accountId - 1].currency), Deposit, now)]
        && OnlyLedgerChanged()
      ensures err.None? && Chronological(old(log)) && WrittenBy(old(log), now) ==> Chronological(log)
    {
      if !(1 <= accountId <= |accounts|) {
        return Some(Plain(DepositNotFoundText));
      }
      accounts := AdjustBalance(accounts, accountId, amount);
      var currency := accounts[accountId - 1].currency;
      if Chronological(log) && WrittenBy(log, now) {
        AppendKeepsChronological(log, TxRecord(accountId, amount, Some(currency), Deposit, now));
      }
      log := log + [TxRecord(accountId, amount, Some(currency), Deposit, now)];
      err := None;
    }

    /** WithdrawFromAccount: debit `amount` from the row whose id and
        currency both match, with no balance guard, and log a withdrawal. */
    method WithdrawFromAccount(accountId: int, amount: real, currency: string, now: Instant) returns (err: Option<Error>)
      modifies this
      ensures err.None? <==> 1 <= accountId <= old(|accounts|) && old(accounts)[accountId - 1].currency == currency
      ensures err.Some? ==> err == Some(Plain(WithdrawNotFoundText)) && unchanged(this)
      ensures err.None? ==>
        && accounts == AdjustBalance(old(accounts), accountId, -amount)
        && log == old(log) + [TxRecord(accountId, amount, Some(currency), Withdraw, now)]
        && OnlyLedgerChanged()
      ensures err.None? && Chronological(old(log)) && WrittenBy(old(log), now) ==> Chronological(log)
    {
      if !(1 <= accountId <= |accounts| && accounts[accountId - 1].currency == currency) {
        return Some(Plain(WithdrawNotFoundText));
      }
      accounts := AdjustBalance(accounts, accountId, -amount);
      if Chronological(log) && WrittenBy(log, now) {
        AppendKeepsChronological(log, TxRecord(accountId, amount, Some(currency), Withdraw, now));
      }
      log := log + [TxRecord(accountId, amount, Some(currency), Withdraw, now)];
      err := None;
    }

    /** TransferFunds: debit the sender only if its balance covers `amount`,
        credit the receiver (an unknown receiver id credits nobody), and log
        one currency-less transfer against the sender. */
    method TransferFunds(fromId: int, toId: int, amount: real, now: Instant) returns (err: Option<Error>)
      modifies this
      ensures err.None? <==> 1 <= fromId <= old(|accounts|) && old(accounts)[fromId - 1].balance >= amount
      ensures err.Some? ==> err == Some(Plain(TransferInsufficientText)) && unchanged(this)
      ensures err.None? ==>
        && accounts == AdjustBalance(AdjustBalance(old(accounts), fromId, -amount), toId, amount)
        && log == old(log) + [TxRecord(fromId, amount, None, Transfer, now)]
        && OnlyLedgerChanged()
      ensures err.None? && Chronological(old(log)) && WrittenBy(old(log), now) ==> Chronological(log)
    {
      if !(1 <= fromId <= |accounts| && accounts[fromId - 1].balance >= amount) {
        return Some(Plain(TransferInsufficientText));
      }
      accounts := AdjustBalance(accounts, fromId, -amount);
      accounts := AdjustBalance(accounts, toId, amount);
      if Chronological(log) && WrittenBy(log, now) {
        AppendKeepsChronological(log, TxRecord(fromId, amount, None, Transfer, now));
      }
      log := log + [TxRecord(fromId, amount, None, Transfer, now)];
      err := None;
    }

    /** GetTransactionHistory: the rows on the user's accounts, newest
        first; the query fails as a whole when one of them has no currency. */
    method GetTransactionHistory(userId: int) returns (entries: seq<HistoryEntry>, err: Option<Error>)
      ensures err.Some? <==> HistoryScanFails(log, accounts, userId)
      ensures err.Some? ==> err == Some(Plain(HistoryScanText)) && entries == []
      ensures err.None? ==> entries == History(log, accounts, userId)
    {
      entries := [];
      var i := 0;
      while i < |log|
        invariant 0 <= i <= |log|
        invariant entries == History(log[..i], accounts, userId)
        invariant forall k | 0 <= k < i :: !(OwnedBy(log[k], accounts, userId) && log[k].currency.None?)
      {
        var t := log[i];
        assert log[..i + 1][..i] == log[..i];
        if OwnedBy(t, accounts, userId) {
          if t.currency.None? {
            return [], Some(Plain(HistoryScanText));
          }
          entries := [HistoryEntry(i + 1, t.amount, t.currency, t.kind, t.createdAt)] + entries;
        }
        i := i + 1;
      }
      assert log[..i] == log;
      err := None;
    }

    /** GetTodayUsageInTJS: the user's withdrawals and transfers dated
        today, each weighed by the repository's rate table; the query fails
        as a whole when one of them has no currency. */
    method GetTodayUsageInTJS(userId: int, now: Instant) returns (total: real, err: Option<Error>)
      ensures err.Some? <==> UsageScanFails(log, accounts, userId, now.date)
      ensures err.Some? ==> err == Some(Plain(UsageScanText)) && total == 0.0
      ensures err.None? ==> total == TodayUsage(log, accounts, userId, now.date)
    {
      total := 0.0;
      var i := 0;
      while i < |log|
        invariant 0 <= i <= |log|
        invariant total == TodayUsage(log[..i], accounts, userId, now.date)
        invariant forall k | 0 <= k < i :: !(CountsToday(log[k], accounts, userId, now.date) && log[k].currency.None?)
      {
        var t := log[i];
        assert log[..i + 1][..i] == log[..i];
        if CountsToday(t, accounts, userId, now.date) {
          if t.currency.None? {
            return 0.0, Some(Plain(UsageScanText));
          }
          var rate := UsageRate(t.currency);
          total := total + t.amount * rate;
        }
        i := i + 1;
      }
      assert log[..i] == log;
      err := None;
    }

    /** CreateDailyLimitForUser: a row with that daily amount, reset now.
        `outcome` is what the database answers to the INSERT. */
    method CreateDailyLimitForUser(userId: int, dailyAmount: real, now: Instant, outcome: Option<Error>) returns (err: Option<Error>)
      modifies this`limits
      ensures err == outcome
      ensures limits == if outcome.None? then old(limits)[userId := LimitRow(dailyAmount, now)] else old(limits)
    {
      err := outcome;
      if outcome.None? {
        limits := limits[userId := LimitRow(dailyAmount, now)];
      }
    }

    /** ResetDailyLimit: that user's last reset becomes now; the daily
        amount and every other user's row stay as they were. */
    method ResetDailyLimit(userId: int, now: Instant)
      modifies this`limits
      ensures userId in old(limits) ==> limits == old(limits)[userId := LimitRow(old(limits)[userId].dailyAmount, now)]
      ensures userId !in old(limits) ==> limits == old(limits)
    {
      if userId in limits {
        limits := limits[userId := limits[userId].(lastReset := now)];
      }
    }

    /** What SetAccountBlock does: an unknown account fails first and
        changes nothing; a failed audit INSERT (`auditInsert`, the
        database's answer) is returned and rolls the flag back; otherwise
        the flag is set and one audit row appended, together. */
    twostate predicate SetBlockDone(accountId: int, block: bool, entry: AuditEntry, auditInsert: Option<Error>,
                                    now: Instant, new err: Option<Error>)
      reads this
    {
      && users == old(users) && cards == old(cards) && log == old(log) && limits == old(limits)
      && (!(1 <= accountId <= old(|accounts|)) ==>
            err == Some(Plain(BlockNotFoundText)) && accounts == old(accounts) && audit == old(audit))
      && (1 <= accountId <= old(|accounts|) && auditInsert.Some? ==>
            err == auditInsert && accounts == old(accounts) && audit == old(audit))
      && (1 <= accountId <= old(|accounts|) && auditInsert.None? ==>
            && err.None?
            && accounts == old(accounts)[accountId - 1 := old(accounts)[accountId - 1].(blocked := block)]
            && audit == old(audit) + [AuditRecord(entry.accountId, entry.adminId, entry.action, entry.reason, now)])
    }

    /** SetAccountBlock. Setting the value the flag already has still
        appends an audit row. */
    method SetAccountBlock(accountId: int, block: bool, entry: AuditEntry, auditInsert: Option<Error>, now: Instant)
      returns (err: Option<Error>)
      modifies this
      ensures SetBlockDone(accountId, block, entry, auditInsert, now, err)
      ensures err.None? && old(accounts)[accountId - 1].blocked == block ==>
        accounts == old(accounts) && |audit| == old(|audit|) + 1
    {
      if !(1 <= accountId <= |accounts|) {
        return Some(Plain(BlockNotFoundText));
      }
      if auditInsert.Some? {
        return auditInsert;
      }
      accounts := accounts[accountId - 1 := accounts[accountId - 1].(blocked := block)];
      audit := audit + [AuditRecord(entry.accountId, entry.adminId, entry.action, entry.reason, now)];
      err := None;
    }

    /** GetAuditLogs: every audit row, newest first. */
    method GetAuditLogs() returns (rows: seq<AuditRecord>)
      ensures rows == Reverse(audit)
    {
      rows := [];
      var i := 0;
      while i < |audit|
        invariant 0 <= i <= |audit|
        invariant rows == Reverse(audit[..i])
      {
        assert audit[..i + 1][1..] == audit[1..i + 1];
        ReverseSnoc(audit[..i], audit[i]);
        assert audit[..i + 1] == audit[..i] + [audit[i]];
        rows := [audit[i]] + rows;
        i := i + 1;
      }
      assert audit[..i] == audit;
    }

    /** CreateUser: append the user; the new id is returned. */
    method CreateUser(row: UserRow, outcome: Option<Error>) returns (id: int, err: Option<Error>)
      modifies this`users
      ensures err == outcome
      ensures outcome.None? ==> users == old(users) + [row] && id == |users|
      ensures outcome.Some? ==> users == old(users) && id == 0
    {
      err := outcome;
      id := 0;
      if outcome.None? {
        users := users + [row];
        id := |users|;
      }
    }

    /** CreateAccount: append the account; the new id is returned. */
    method CreateAccount(row: AccountRow, outcome: Option<Error>) returns (id: int, err: Option<Error>)
      modifies this`accounts
      ensures err == outcome
      ensures outcome.None? ==> accounts == old(accounts) + [row] && id == |accounts|
      ensures outcome.Some? ==> accounts == old(accounts) && id == 0
    {
      err := outcome;
      id := 0;
      if outcome.None? {
        accounts := accounts + [row];
        id := |accounts|;
      }
    }

    /** CreateCard: append the card. */
    method CreateCard(row: CardRow, outcome: Option<Error>) returns (err: Option<Error>)
      modifies this`cards
      ensures err == outcome
      ensures cards == if outcome.None? then old(cards) + [row] else old(cards)
    {
      err := outcome;
      if outcome.None? {
        cards := cards + [row];
      }
    }
  }

  lemma ReverseSnoc<T>(s: seq<T>, x: T)
    ensures Reverse(s + [x]) == [x] + Reverse(s)
  {
    if s != [] {
      assert (s + [x])[1..] == s[1..] + [x];
      ReverseSnoc(s[1..], x);
    } else {
      assert s + [x] == [x];
    }
  }

  // ---------------------------------------------------------------------
  // Properties of the tables
  // ---------------------------------------------------------------------

  /** A transfer between two existing accounts keeps the total of all
      balances; a transfer to an id with no row destroys `amount`. */
  lemma TransferConservesTotal(rows: seq<AccountRow>, fromId: int, toId: int, amount: real)
    requires 1 <= fromId <= |rows|
    ensures 1 <= toId <= |rows| ==> Total(AdjustBalance(AdjustBalance(rows, fromId, -amount), toId, amount)) == Total(rows)
    ensures !(1 <= toId <= |rows|) ==> Total(AdjustBalance(AdjustBalance(rows, fromId, -amount), toId, amount)) == Total(rows) - amount
  {
    TotalAdjust(rows, fromId, -amount);
    TotalAdjust(AdjustBalance(rows, fromId, -amount), toId, amount);
  }

  /** A transfer moves exactly `amount` from the sender to a distinct
      receiver and leaves every other row as it was. */
  lemma TransferMovesAmount(rows: seq<AccountRow>, fromId: int, toId: int, amount: real, k: nat)
    requires 1 <= fromId <= |rows| && 1 <= toId <= |rows| && fromId != toId && k < |rows|
    ensures var r := AdjustBalance(AdjustBalance(rows, fromId, -amount), toId, amount);
      && (k == fromId - 1 ==> r[k].balance == rows[k].balance - amount)
      && (k == toId - 1 ==> r[k].balance == rows[k].balance + amount)
      && (k != fromId - 1 && k != toId - 1 ==> r[k] == rows[k])
      && r[k].userId == rows[k].userId && r[k].currency == rows[k].currency && r[k].blocked == rows[k].blocked
  {
  }

  /** Only withdrawals and transfers count: a deposit leaves today's usage
      as it was, a counted row adds its amount at its rate. */
  lemma UsageAfterAppend(log: seq<TxRecord>, accounts: seq<AccountRow>, userId: int, today: Date, t: TxRecord)
    ensures t.kind == Deposit ==> TodayUsage(log + [t], accounts, userId, today) == TodayUsage(log, accounts, userId, today)
    ensures CountsToday(t, accounts, userId, today) ==>
      TodayUsage(log + [t], accounts, userId, today) == TodayUsage(log, accounts, userId, today) + t.amount * UsageRate(t.currency)
  {
    assert (log + [t])[..|log|] == log;
  }

  /** Usage is never negative when no logged amount is. */
  lemma {:induction false} UsageNonNegative(log: seq<TxRecord>, accounts: seq<AccountRow>, userId: int, today: Date)
    requires forall k | 0 <= k < |log| :: log[k].amount >= 0.0
    ensures TodayUsage(log, accounts, userId, today) >= 0.0
  {
    if log != [] {
      var t := log[|log| - 1];
      UsageNonNegative(log[..|log| - 1], accounts, userId, today);
      assert t.amount >= 0.0;
      assert UsageRate(t.currency) >= 1.0;
      assert t.amount * UsageRate(t.currency) >= 0.0;
    }
  }

  /** With no row that counts, usage is 0. */
  lemma {:induction false} UsageZeroWithoutMatches(log: seq<TxRecord>, accounts: seq<AccountRow>, userId: int, today: Date)
    requires forall k | 0 <= k < |log| :: !CountsToday(log[k], accounts, userId, today)
    ensures TodayUsage(log, accounts, userId, today) == 0.0
  {
    if log != [] {
      UsageZeroWithoutMatches(log[..|log| - 1], accounts, userId, today);
    }
  }

  /** Appending a row written no earlier than the last one keeps the log in
      time order. */
  lemma AppendKeepsChronological(log: seq<TxRecord>, t: TxRecord)
    requires Chronological(log) && WrittenBy(log, t.createdAt)
    ensures Chronological(log + [t])
  {
  }

  /** A transfer is logged without a currency: from then on the sender's
      owner cannot read a history, and cannot have today's usage summed. */
  lemma TransferRowBreaksQueries(log: seq<TxRecord>, accounts: seq<AccountRow>, fromId: int, amount: real, now: Instant)
    requires 1 <= fromId <= |accounts|
    ensures var after := log + [TxRecord(fromId, amount, None, Transfer, now)];
      var owner := accounts[fromId - 1].userId;
      UsageScanFails(after, accounts, owner, now.date) && HistoryScanFails(after, accounts, owner)
  {
    var after := log + [TxRecord(fromId, amount, None, Transfer, now)];
    var owner := accounts[fromId - 1].userId;
    assert CountsToday(after[|log|], accounts, owner, now.date) && after[|log|].currency.None?;
    assert OwnedBy(after[|log|], accounts, owner);
  }

  /** Rows are never removed from the log, so a failing query keeps
      failing whatever is appended. */
  lemma ScanFailuresPersist(log: seq<TxRecord>, more: seq<TxRecord>, accounts: seq<AccountRow>, userId: int, today: Date)
    ensures UsageScanFails(log, accounts, userId, today) ==> UsageScanFails(log + more, accounts, userId, today)
    ensures HistoryScanFails(log, accounts, userId) ==> HistoryScanFails(log + more, accounts, userId)
  {
    if UsageScanFails(log, accounts, userId, today) {
      var k :| 0 <= k < |log| && CountsToday(log[k], accounts, userId, today) && log[k].currency.None?;
      assert (log + more)[k] == log[k];
    }
    if HistoryScanFails(log, accounts, userId) {
      var k :| 0 <= k < |log| && OwnedBy(log[k], accounts, userId) && log[k].currency.None?;
      assert (log + more)[k] == log[k];
    }
  }
}
