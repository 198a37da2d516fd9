/** The funds service: deposit, withdraw and transfer. Each validates the
    request in a fixed order, resolves the accounts by card number or phone
    number, prices the overlimit fee, and ends in one atomic repository
    step. */
module Funds {
  import opened Errs
  import opened Domain
  import opened Repository
  import opened Limits

  const AmountText: string := "amount must be greater than zero"
  const NoTargetText: string := "either card_number or phone_number must be provided"
  const BlockedText: string := "account is blocked"
  const AccessDeniedText: string := "access denied"
  const WithdrawNotFoundText: string := "account not found for the provided phone number and currency"
  const InvalidBalanceText: string := "invalid balance format"
  const InsufficientText: string := "insufficient funds"
  const InsufficientWithFeeText: string := "insufficient funds including overlimit fee"
  const EitherBlockedText: string := "one of the accounts is blocked"

  /** An empty currency means TJS. */
  function CurrencyOrDefault(currency: string): (r: string)
    ensures r != ""
    ensures currency != "" ==> r == currency
    ensures currency == "" ==> r == TJS
  {
    if currency == "" then TJS else currency
  }

  /** The account a request names: by card number when one is given,
      otherwise by phone number. */
  function Resolve(store: Store, cardNumber: string, phoneNumber: string, currency: string): (r: Result<AccountView>)
    reads store
    requires cardNumber != "" || phoneNumber != ""
    ensures r.Ok? ==> 1 <= r.value.id <= |store.accounts| && r.value == ViewOf(store.accounts, r.value.id)
                      && r.value.currency == currency
    ensures r.Ok? && cardNumber != "" ==>
      exists k | 0 <= k < |store.cards| :: CardJoins(store.cards[k], store.accounts, cardNumber, currency)
                                           && store.cards[k].accountId == r.value.id
    ensures r.Ok? && cardNumber == "" ==> PhoneJoins(store.accounts, store.users, r.value.id - 1, phoneNumber, currency)
    ensures r.Err? ==> r.error == Sentinel(SqlNoRows)
  {
    if cardNumber != "" then store.AccountByCard(cardNumber, currency) else store.AccountByPhone(phoneNumber, currency)
  }

  /** The account a deposit or withdrawal acts on, or why there is none:
      no identifier, a failed lookup (its error renamed for a withdrawal),
      a blocked account, or an account of another user. */
  function OwnAccount(store: Store, currentUserId: int, req: ReqTransaction, forWithdraw: bool): (r: Result<AccountView>)
    reads store
    ensures req.cardNumber == "" && req.phoneNumber == "" ==> r == Err(Plain(NoTargetText))
    ensures r.Ok? ==> 1 <= r.value.id <= |store.accounts| && r.value == ViewOf(store.accounts, r.value.id)
    ensures r.Ok? ==> var a := store.accounts[r.value.id - 1];
      a.userId == currentUserId && !a.blocked && a.currency == CurrencyOrDefault(req.currency)
    ensures r.Ok? && req.cardNumber != "" ==>
      exists k | 0 <= k < |store.cards| :: CardJoins(store.cards[k], store.accounts, req.cardNumber, CurrencyOrDefault(req.currency))
                                           && store.cards[k].accountId == r.value.id
    ensures r.Ok? && req.cardNumber == "" ==>
      PhoneJoins(store.accounts, store.users, r.value.id - 1, req.phoneNumber, CurrencyOrDefault(req.currency))
  {
    if req.cardNumber == "" && req.phoneNumber == "" then Err(Plain(NoTargetText))
    else match Resolve(store, req.cardNumber, req.phoneNumber, CurrencyOrDefault(req.currency))
      case Err(e) => Err(if forWithdraw && Text(e) == NoRowsText then Plain(WithdrawNotFoundText) else e)
      case Ok(account) =>
        if account.blocked then Err(Plain(BlockedText))
        else if account.userId != currentUserId then Err(Plain(AccessDeniedText))
        else Ok(account)
  }

  /** The account id a deposit credits, or the error it stops with. */
  function DepositCheck(store: Store, currentUserId: int, req: ReqTransaction): (r: Result<int>)
    reads store
    ensures req.amount <= 0.0 ==> r == Err(Plain(AmountText))
    ensures r.Ok? ==> req.amount > 0.0 && 1 <= r.value <= |store.accounts|
    ensures r.Ok? ==> var a := store.accounts[r.value - 1];
      a.userId == currentUserId && !a.blocked && a.currency == CurrencyOrDefault(req.currency)
  {
    if req.amount <= 0.0 then Err(Plain(AmountText))
    else match OwnAccount(store, currentUserId, req, false)
      case Err(e) => Err(e)
      case Ok(account) => Ok(account.id)
  }

  /** The account a withdrawal debits, or the error it stops with before
      the fee is priced. */
  function WithdrawCheck(store: Store, currentUserId: int, req: ReqTransaction): (r: Result<AccountView>)
    reads store
    ensures req.amount <= 0.0 ==> r == Err(Plain(AmountText))
    ensures r.Ok? ==> 1 <= r.value.id <= |store.accounts| && r.value == ViewOf(store.accounts, r.value.id)
    ensures r.Ok? ==> var a := store.accounts[r.value.id - 1];
      a.userId == currentUserId && !a.blocked && a.currency == CurrencyOrDefault(req.currency)
      && 0.0 < req.amount <= a.balance
    ensures req.amount > 0.0 && (req.cardNumber != "" || req.phoneNumber != "") ==>
      var o := OwnAccount(store, currentUserId, req, true);
      o.Ok? && req.amount > store.accounts[o.value.id - 1].balance ==> r == Err(Plain(InsufficientText))
  {
    if req.amount <= 0.0 then Err(Plain(AmountText))
    else match OwnAccount(store, currentUserId, req, true)
      case Err(e) => Err(e)
      case Ok(account) =>
        if account.balance.None? then Err(Plain(InvalidBalanceText))
        else if req.amount > account.balance.value then Err(Plain(InsufficientText))
        else Ok(account)
  }

  /** The outcome of one side's lookup in a transfer: no lookup when the
      side names neither a card nor a phone. */
  datatype Sought = NotSought | Sought(result: Result<AccountView>)

  function Seek(store: Store, cardNumber: string, phoneNumber: string, currency: string): (s: Sought)
    reads store
    ensures s.NotSought? <==> cardNumber == "" && phoneNumber == ""
    ensures s.Sought? && s.result.Ok? ==>
      s.result.value.currency == currency && 1 <= s.result.value.id <= |store.accounts|
  {
    if cardNumber == "" && phoneNumber == "" then NotSought
    else Sought(Resolve(store, cardNumber, phoneNumber, currency))
  }

  /** The account a lookup fills in: the zero account unless it succeeded. */
  function Filled(s: Sought): AccountView {
    if s.Sought? && s.result.Ok? then s.result.value else ZeroAccount
  }

  /** The error after both lookups: the receiver's outcome, when a receiver
      was looked up, replaces the sender's. */
  function LookupError(from: Sought, to: Sought): Option<Error> {
    var last := if to.Sought? then to else from;
    if last.Sought? && last.result.Err? then Some(last.result.error) else None
  }

  /** A receiver lookup decides the error alone, a failed one included;
      only when no receiver is named does the sender's lookup decide it. */
  lemma LookupErrorIsLastOutcome(from: Sought, to: Sought)
    ensures to.Sought? ==> (LookupError(from, to).Some? <==> to.result.Err?)
    ensures to.Sought? && to.result.Err? ==> LookupError(from, to) == Some(to.result.error)
    ensures to.NotSought? ==> LookupError(from, to) == (if from.Sought? && from.result.Err? then Some(from.result.error) else None)
  {
  }

  /** What a transfer has established before pricing the fee. */
  datatype Parties = Parties(from: AccountView, to: AccountView, balance: real)

  /** The sender and receiver of a transfer and the sender's balance, or the
      error it stops with before the fee is priced. Nothing here compares
      the sender's owner with the caller. */
  function TransferCheck(store: Store, req: ReqTransfer): (r: Result<Parties>)
    reads store
    ensures r.Ok? ==> var p := r.value;
      && 1 <= p.from.id <= |store.accounts| && p.from == ViewOf(store.accounts, p.from.id)
      && p.from.currency == CurrencyOrDefault(req.currency)
      && p.balance == store.accounts[p.from.id - 1].balance
      && 0.0 < req.amount <= p.balance
      && !p.from.blocked && !p.to.blocked
      && (p.to == ZeroAccount || (1 <= p.to.id <= |store.accounts| && p.to == ViewOf(store.accounts, p.to.id)
                                  && p.to.currency == CurrencyOrDefault(req.currency)))
    ensures r.Ok? && req.toCardNumber == "" && req.toPhoneNumber == "" ==> r.value.to == ZeroAccount
  {
    var currency := CurrencyOrDefault(req.currency);
    var fromSought := Seek(store, req.fromCardNumber, req.fromPhoneNumber, currency);
    var toSought := Seek(store, req.toCardNumber, req.toPhoneNumber, currency);
    var from := Filled(fromSought);
    var to := Filled(toSought);
    match LookupError(fromSought, toSought)
    case Some(e) => Err(e)
    case None =>
      if from.blocked || to.blocked then Err(Plain(EitherBlockedText))
      else if req.amount <= 0.0 then Err(Plain(AmountText))
      else if from.balance.None? then Err(Plain(InvalidBalanceText))
      else if req.amount > from.balance.value then Err(Plain(InsufficientText))
      else Ok(Parties(from, to, from.balance.value))
  }

  /** A failed sender lookup is lost when a receiver is looked up
      successfully: the transfer goes on with the zero account as sender
      and stops at its unparsable balance. */
  lemma SenderLookupErrorIsLost(store: Store, req: ReqTransfer)
    requires req.amount > 0.0
    requires req.fromCardNumber != "" || req.fromPhoneNumber != ""
    requires Resolve(store, req.fromCardNumber, req.fromPhoneNumber, CurrencyOrDefault(req.currency)).Err?
    requires req.toCardNumber != "" || req.toPhoneNumber != ""
    requires var t := Resolve(store, req.toCardNumber, req.toPhoneNumber, CurrencyOrDefault(req.currency));
      t.Ok? && !t.value.blocked
    ensures TransferCheck(store, req) == Err(Plain(InvalidBalanceText))
  {
  }

  /** Deposit: credit the requested amount, unchanged and without any limit
      check, to the caller's own unblocked account in the request's
      currency. */
  method Deposit(store: Store, currentUserId: int, req: ReqTransaction, now: Instant) returns (err: Option<Error>)
    modifies store
    ensures var c := old(DepositCheck(store, currentUserId, req));
      && (c.Err? ==> err == Some(c.error) && unchanged(store))
      && (c.Ok? ==>
            && err.None?
            && store.accounts == AdjustBalance(old(store.accounts), c.value, req.amount)
            && store.log == old(store.log) + [TxRecord(c.value, req.amount, Some(CurrencyOrDefault(req.currency)), TxKind.Deposit, now)]
            && store.OnlyLedgerChanged())
  {
    var currency := CurrencyOrDefault(req.currency);
    if req.amount <= 0.0 {
      return Some(Plain(AmountText));
    }

    var found: Result<AccountView>;
    if req.cardNumber != "" {
      found := store.AccountByCard(req.cardNumber, currency);
    } else if req.phoneNumber != "" {
      found := store.AccountByPhone(req.phoneNumber, currency);
    } else {
      return Some(Plain(NoTargetText));
    }
    if found.Err? {
      return Some(found.error);
    }

    var account := found.value;
    if account.blocked {
      return Some(Plain(BlockedText));
    }
    if account.userId != currentUserId {
      return Some(Plain(AccessDeniedText));
    }
    err := store.DepositToAccount(account.id, req.amount, now);
  }

  /** Withdraw: the checks of WithdrawCheck, then SettleWithdrawal. The
      limit reset the pricing may make stays even when the debit is
      refused. */
  method Withdraw(store: Store, currentUserId: int, req: ReqTransaction, now: Instant) returns (err: Option<Error>)
    modifies store
    ensures var c := old(WithdrawCheck(store, currentUserId, req));
      c.Err? ==> err == Some(c.error) && unchanged(store)
    ensures var c := old(WithdrawCheck(store, currentUserId, req));
      c.Ok? ==> WithdrawalSettled(store, c.value, req.amount, CurrencyOrDefault(req.currency), now, err)
  {
    var checked := LocateWithdrawal(store, currentUserId, req);
    if checked.Err? {
      return Some(checked.error);
    }
    var account := checked.value;
    assert 1 <= account.id <= |store.accounts| && account.balance.Some?
      && store.accounts[account.id - 1].currency == CurrencyOrDefault(req.currency);
    err := SettleWithdrawal(store, account, req.amount, CurrencyOrDefault(req.currency), now);
  }

  /** The checks of a withdrawal up to the fee, in the order the service
      makes them: the amount, the lookup (a missing row renamed), the
      blocked flag, the owner, the balance. */
  method LocateWithdrawal(store: Store, currentUserId: int, req: ReqTransaction) returns (r: Result<AccountView>)
    ensures r == WithdrawCheck(store, currentUserId, req)
  {
    var currency := CurrencyOrDefault(req.currency);
    if req.amount <= 0.0 {
      return Err(Plain(AmountText));
    }

    var found: Result<AccountView>;
    if req.cardNumber != "" {
      found := store.AccountByCard(req.cardNumber, currency);
    } else if req.phoneNumber != "" {
      found := store.AccountByPhone(req.phoneNumber, currency);
    } else {
      return Err(Plain(NoTargetText));
    }
    if found.Err? {
      var e := found.error;
      return Err(if Text(e) == NoRowsText then Plain(WithdrawNotFoundText) else e);
    }

    var account := found.value;
    if account.blocked {
      return Err(Plain(BlockedText));
    }
    if account.userId != currentUserId {
      return Err(Plain(AccessDeniedText));
    }
    var balance := account.balance;
    if balance.None? {
      return Err(Plain(InvalidBalanceText));
    }
    if req.amount > balance.value {
      return Err(Plain(InsufficientText));
    }
    return Ok(account);
  }

  /** The outcome of settling a withdrawal from a known account: the limit
      row is refreshed for the account's owner; an error from pricing the
      fee, or amount plus fee above the balance read before, changes
      nothing else; otherwise amount plus fee is debited and one withdraw
      row is logged with that sum in the account's currency. */
  twostate predicate WithdrawalSettled(store: Store, account: AccountView, amount: real, currency: string, now: Instant,
                                       new err: Option<Error>)
    reads store
  {
    var f := FeeFor(old(store.limits), old(store.log), old(store.accounts), account.userId, amount, currency, now);
    && account.balance.Some?
    && store.limits == LimitsAfterCheck(old(store.limits), account.userId, currency, now)
    && store.users == old(store.users) && store.cards == old(store.cards) && store.audit == old(store.audit)
    && (f.Err? ==> err == Some(f.error) && store.accounts == old(store.accounts) && store.log == old(store.log))
    && (f.Ok? && amount + f.value > account.balance.value ==>
          err == Some(Plain(InsufficientWithFeeText)) && store.accounts == old(store.accounts) && store.log == old(store.log))
    && (f.Ok? && amount + f.value <= account.balance.value ==>
          && err.None?
          && store.accounts == AdjustBalance(old(store.accounts), account.id, -(amount + f.value))
          && store.log == old(store.log) + [TxRecord(account.id, amount + f.value, Some(currency), TxKind.Withdraw, now)])
  }

  /** The rest of Withdraw once the account is known: price the fee for its
      owner, check amount plus fee against the balance read before, and
      debit amount plus fee. */
  method SettleWithdrawal(store: Store, account: AccountView, amount: real, currency: string, now: Instant)
    returns (err: Option<Error>)
    requires 1 <= account.id <= |store.accounts| && account.balance.Some?
    requires store.accounts[account.id - 1].currency == currency
    modifies store
    ensures WithdrawalSettled(store, account, amount, currency, now, err)
  {
    var fee, feeErr := CheckLimitAndCalculateFee(store, account.userId, amount, currency, now);
    if feeErr.Some? {
      return feeErr;
    }

    var total := amount + fee;
    if total > account.balance.value {
      return Some(Plain(InsufficientWithFeeText));
    }
    err := store.WithdrawFromAccount(account.id, total, currency, now);
  }

  /** The checks of a transfer up to the fee, in the order the service
      makes them: both lookups (the receiver's outcome replacing the
      sender's error), the blocked flags, the amount, the sender's balance. */
  method ResolveTransfer(store: Store, req: ReqTransfer) returns (r: Result<Parties>)
    ensures r == TransferCheck(store, req)
  {
    var currency := CurrencyOrDefault(req.currency);
    var fromAccount := ZeroAccount;
    var toAccount := ZeroAccount;
    var lookupErr: Option<Error> := None;

    if req.fromCardNumber != "" || req.fromPhoneNumber != "" {
      var found := Resolve(store, req.fromCardNumber, req.fromPhoneNumber, currency);
      lookupErr := if found.Err? then Some(found.error) else None;
      if found.Ok? {
        fromAccount := found.value;
      }
    }
    if req.toCardNumber != "" || req.toPhoneNumber != "" {
      var found := Resolve(store, req.toCardNumber, req.toPhoneNumber, currency);
      lookupErr := if found.Err? then Some(found.error) else None;
      if found.Ok? {
        toAccount := found.value;
      }
    }
    if lookupErr.Some? {
      return Err(lookupErr.value);
    }

    if fromAccount.blocked || toAccount.blocked {
      return Err(Plain(EitherBlockedText));
    }
    if req.amount <= 0.0 {
      return Err(Plain(AmountText));
    }
    var balance := fromAccount.balance;
    if balance.None? {
      return Err(Plain(InvalidBalanceText));
    }
    if req.amount > balance.value {
      return Err(Plain(InsufficientText));
    }
    return Ok(Parties(fromAccount, toAccount, balance.value));
  }

  /** Transfer: the checks of TransferCheck, then SettleTransfer. Nothing
      compares the sender's owner with the caller. */
  method Transfer(store: Store, currentUserId: int, req: ReqTransfer, now: Instant) returns (err: Option<Error>)
    modifies store
    ensures var c := old(TransferCheck(store, req));
      c.Err? ==> err == Some(c.error) && unchanged(store)
    ensures var c := old(TransferCheck(store, req));
      c.Ok? ==> TransferSettled(store, c.value, req.amount, CurrencyOrDefault(req.currency), now, err)
  {
    var checked := ResolveTransfer(store, req);
    if checked.Err? {
      return Some(checked.error);
    }
    err := SettleTransfer(store, checked.value, req.amount, CurrencyOrDefault(req.currency), now);
  }

  /** The outcome of settling a transfer between known parties: the limit
      row is refreshed for the sender's owner; an error from pricing the fee,
      or amount plus fee above the balance read before, changes nothing
      else; otherwise amount plus fee leaves the sender, the receiver is
      credited amount plus fee (nothing when it is the zero account), and
      one transfer row is logged with the sum and no currency. */
  twostate predicate TransferSettled(store: Store, p: Parties, amount: real, currency: string, now: Instant,
                                     new err: Option<Error>)
    reads store
  {
    var f := FeeFor(old(store.limits), old(store.log), old(store.accounts), p.from.userId, amount, currency, now);
    && store.limits == LimitsAfterCheck(old(store.limits), p.from.userId, currency, now)
    && store.users == old(store.users) && store.cards == old(store.cards) && store.audit == old(store.audit)
    && (f.Err? ==> err == Some(f.error) && store.accounts == old(store.accounts) && store.log == old(store.log))
    && (f.Ok? && amount + f.value > p.balance ==>
          err == Some(Plain(InsufficientWithFeeText)) && store.accounts == old(store.accounts) && store.log == old(store.log))
    && (f.Ok? && amount + f.value <= p.balance ==>
          && err.None?
          && store.accounts == AdjustBalance(AdjustBalance(old(store.accounts), p.from.id, -(amount + f.value)), p.to.id, amount + f.value)
          && store.log == old(store.log) + [TxRecord(p.from.id, amount + f.value, None, TxKind.Transfer, now)])
  }

  /** The rest of Transfer once the parties are known: price the fee for
      the sender's owner, check amount plus fee against the balance read
      before, and move amount plus fee. */
  method SettleTransfer(store: Store, p: Parties, amount: real, currency: string, now: Instant) returns (err: Option<Error>)
    requires 1 <= p.from.id <= |store.accounts| && p.balance == store.accounts[p.from.id - 1].balance
    modifies store
    ensures TransferSettled(store, p, amount, currency, now, err)
  {
    var fee, feeErr := CheckLimitAndCalculateFee(store, p.from.userId, amount, currency, now);
    if feeErr.Some? {
      return feeErr;
    }

    var total := amount + fee;
    if total > p.balance {
      return Some(Plain(InsufficientWithFeeText));
    }
    err := store.TransferFunds(p.from.id, p.to.id, total, now);
  }

  /** HistoryLogs: the caller's history as the repository reads it, or
      the repository's error. */
  method HistoryLogs(store: Store, userId: int) returns (entries: seq<HistoryEntry>, err: Option<Error>)
    ensures err.Some? <==> HistoryScanFails(store.log, store.accounts, userId)
    ensures err.Some? ==> err == Some(Plain(HistoryScanText)) && entries == []
    ensures err.None? ==> entries == History(store.log, store.accounts, userId)
    ensures forall n | 0 <= n < |entries| :: 1 <= entries[n].id <= |store.log| && OwnedBy(store.log[entries[n].id - 1], store.accounts, userId)
  {
    entries, err := store.GetTransactionHistory(userId);
    forall n | 0 <= n < |entries|
      ensures 1 <= entries[n].id <= |store.log| && OwnedBy(store.log[entries[n].id - 1], store.accounts, userId)
    {
      HistoryEntriesFromLog(store.log, store.accounts, userId, n);
    }
  }

  // ---------------------------------------------------------------------
  // Properties of the three operations
  // ---------------------------------------------------------------------

  /** A withdrawal that goes through leaves a non-negative balance whenever
      the fee is non-negative: the debit of amount plus fee is checked
      against the balance read before pricing. */
  lemma WithdrawNeverOverdraws(accounts: seq<AccountRow>, id: int, amount: real, fee: real)
    requires 1 <= id <= |accounts| && amount + fee <= accounts[id - 1].balance
    ensures AdjustBalance(accounts, id, -(amount + fee))[id - 1].balance >= 0.0
    ensures Total(AdjustBalance(accounts, id, -(amount + fee))) == Total(accounts) - (amount + fee)
  {
    TotalAdjust(accounts, id, -(amount + fee));
  }

  /** A withdrawal recorded with its fee counts towards the rest of the
      day's fees: the day's usage grows by amount plus fee, weighed at the
      currency's rate. */
  lemma RecordedWithdrawIncludesFee(log: seq<TxRecord>, accounts: seq<AccountRow>, id: int, amount: real, fee: real,
                                    currency: string, now: Instant)
    requires 1 <= id <= |accounts| && currency in CurrencyRates
    ensures var t := TxRecord(id, amount + fee, Some(currency), TxKind.Withdraw, now);
      TodayUsage(log + [t], accounts, accounts[id - 1].userId, now.date)
        == TodayUsage(log, accounts, accounts[id - 1].userId, now.date) + (amount + fee) * CurrencyRates[currency]
  {
    var t := TxRecord(id, amount + fee, Some(currency), TxKind.Withdraw, now);
    UsageAfterAppend(log, accounts, accounts[id - 1].userId, now.date, t);
    UsageRateAgrees(currency);
  }
}
