/** Registration provisioning: a new user gets one account in each of TJS,
    USD and EUR (in that order, balance 0, unblocked), one card per account
    in the user's name, and then a daily limit of 1000 TJS. Each INSERT's
    answer from the database is an input, and so are the random bytes the
    card generator draws (fifteen per card: twelve for the number, three for
    the CVV). The password arrives already hashed. */
module Registration {
  import opened Errs
  import opened Domain
  import opened Repository
  import opened CardDigits
  import ServiceErrors

  const DefaultDailyLimit: real := 1000.0
  const CardValidityYears: int := 4
  const CardFailedText: string := "не удалось создать карту"

  /** Random bytes drawn per card. */
  const BytesPerCard: nat := 15

  /** GenerateExpiry: the same calendar day `years` later, so for a
      positive `years` a date after today. */
  function ExpiryFrom(now: Instant, years: int): (r: Date)
    ensures r.year - now.date.year == years && r.month == now.date.month && r.day == now.date.day
    ensures years > 0 ==> DateBefore(now.date, r)
  {
    Date(now.date.year + years, now.date.month, now.date.day)
  }

  /** CreateCardForAccount: a fresh card number and CVV from the random
      bytes, the holder's name, and an expiry four years ahead. A failed
      INSERT (`outcome`) is reported as one fixed message and no card. */
  method CreateCardForAccount(store: Store, accountId: int, holderName: string, numberRandom: seq<byte>,
                              cvvRandom: seq<byte>, now: Instant, outcome: Option<Error>)
    returns (card: Option<CardRow>, err: Option<Error>)
    requires |numberRandom| == CardNumberDigits && |cvvRandom| == CvvDigits
    modifies store`cards
    ensures var row := CardRow(accountId, CardPrefix + DigitsOf(numberRandom), holderName,
                               ExpiryFrom(now, CardValidityYears), DigitsOf(cvvRandom));
      && (outcome.None? ==> err.None? && card == Some(row) && store.cards == old(store.cards) + [row])
      && (outcome.Some? ==> err == Some(Plain(CardFailedText)) && card.None? && store.cards == old(store.cards))
  {
    var number, _ := GenerateCardNumber(numberRandom);
    var cvv, _ := GenerateCVV(cvvRandom);
    var expiry := ExpiryFrom(now, CardValidityYears);
    var row := CardRow(accountId, number, holderName, expiry, cvv);
    var insertErr := store.CreateCard(row, outcome);
    if insertErr.Some? {
      return None, Some(Plain(CardFailedText));
    }
    return Some(row), None;
  }

  /** The database's answers to Register's INSERTs: the user, the account
      and the card of each round, and the limit. A round without an answer
      succeeds. */
  datatype InsertOutcomes = InsertOutcomes(user: Option<Error>, accounts: seq<Option<Error>>,
                                           cards: seq<Option<Error>>, limit: Option<Error>)

  function AccountOutcome(o: InsertOutcomes, round: nat): Option<Error> {
    if round < |o.accounts| then o.accounts[round] else None
  }

  function CardOutcome(o: InsertOutcomes, round: nat): Option<Error> {
    if round < |o.cards| then o.cards[round] else None
  }

  /** Round `round` created both its account and its card. */
  predicate RoundSucceeds(o: InsertOutcomes, round: nat) {
    AccountOutcome(o, round).None? && CardOutcome(o, round).None?
  }

  /** Where provisioning stops. */
  datatype Stop = AccountFailed(round: nat, error: Error) | CardFailed(round: nat) | AllProvisioned

  /** The first failing round from `from` on, and what failed in it. */
  function Provision(o: InsertOutcomes, from: nat): (s: Stop)
    requires from <= |Currencies|
    ensures s.AllProvisioned? <==> forall j | from <= j < |Currencies| :: RoundSucceeds(o, j)
    ensures !s.AllProvisioned? ==>
      from <= s.round < |Currencies| && forall j | from <= j < s.round :: RoundSucceeds(o, j)
    ensures s.AccountFailed? ==> AccountOutcome(o, s.round) == Some(s.error)
    ensures s.CardFailed? ==> AccountOutcome(o, s.round).None? && CardOutcome(o, s.round).Some?
    decreases |Currencies| - from
  {
    if from == |Currencies| then AllProvisioned
    else if !RoundSucceeds(o, from) then
      if AccountOutcome(o, from).Some? then AccountFailed(from, AccountOutcome(o, from).value) else CardFailed(from)
    else Provision(o, from + 1)
  }

  /** Accounts created before provisioning stopped. */
  function AccountsMade(s: Stop): nat {
    match s
    case AccountFailed(round, _) => round
    case CardFailed(round) => round + 1
    case AllProvisioned => |Currencies|
  }

  /** Cards created before provisioning stopped. */
  function CardsMade(s: Stop): nat {
    match s
    case AccountFailed(round, _) => round
    case CardFailed(round) => round
    case AllProvisioned => |Currencies|
  }

  /** The first `n` accounts of a new user. */
  function NewAccounts(userId: int, n: nat): seq<AccountRow>
    requires n <= |Currencies|
  {
    seq(n, i requires 0 <= i < n => AccountRow(userId, Currencies[i], 0.0, false))
  }

  /** The card of round `round`, issued on account `accountId`. */
  function RoundCard(accountId: int, round: nat, holderName: string, random: seq<byte>, now: Instant): CardRow
    requires round < |Currencies| && |random| == BytesPerCard * |Currencies|
  {
    var at := BytesPerCard * round;
    CardRow(accountId, CardPrefix + DigitsOf(random[at..at + CardNumberDigits]), holderName,
            ExpiryFrom(now, CardValidityYears), DigitsOf(random[at + CardNumberDigits..at + BytesPerCard]))
  }

  /** The first `n` cards of a new user whose first account is `firstAccountId`. */
  function NewCards(firstAccountId: int, n: nat, holderName: string, random: seq<byte>, now: Instant): seq<CardRow>
    requires n <= |Currencies| && |random| == BytesPerCard * |Currencies|
  {
    seq(n, i requires 0 <= i < n => RoundCard(firstAccountId + i, i, holderName, random, now))
  }

  /** Register's provisioning. */
  method Register(store: Store, req: ReqRegister, role: string, passwordHash: string, random: seq<byte>,
                  outcomes: InsertOutcomes, now: Instant) returns (user: User, err: Option<Error>)
    requires |random| == BytesPerCard * |Currencies|
    modifies store
    ensures outcomes.user.Some? ==>
      user == EmptyUser && err == Some(ServiceErrors.Translate(outcomes.user.value)) && unchanged(store)
    ensures outcomes.user.None? ==>
      var userId := old(|store.users|) + 1;
      var registered := User(userId, req.fullName, req.phone, req.email, passwordHash, role);
      var stop := Provision(outcomes, 0);
      && store.users == old(store.users) + [UserRow(req.fullName, req.phone, req.email, passwordHash, role)]
      && store.accounts == old(store.accounts) + NewAccounts(userId, AccountsMade(stop))
      && store.cards == old(store.cards) + NewCards(old(|store.accounts|) + 1, CardsMade(stop), req.fullName, random, now)
      && store.log == old(store.log) && store.audit == old(store.audit)
      && store.limits == (if stop.AllProvisioned? && outcomes.limit.None?
                          then old(store.limits)[userId := LimitRow(DefaultDailyLimit, now)]
                          else old(store.limits))
      && (stop.AccountFailed? ==> user == registered && err == Some(ServiceErrors.Translate(stop.error)))
      && (stop.CardFailed? ==> user == EmptyUser && err == Some(Plain(CardFailedText)))
      && (stop.AllProvisioned? ==>
            user == registered
            && err == (if outcomes.limit.Some? then Some(ServiceErrors.Translate(outcomes.limit.value)) else None))
  {
    var row := UserRow(req.fullName, req.phone, req.email, passwordHash, role);
    var userId, userErr := store.CreateUser(row, outcomes.user);
    if userErr.Some? {
      return EmptyUser, Some(ServiceErrors.Translate(userErr.value));
    }
    user := User(userId, req.fullName, req.phone, req.email, passwordHash, role);

    ghost var firstAccountId := old(|store.accounts|) + 1;
    var i := 0;
    while i < |Currencies|
      invariant 0 <= i <= |Currencies|
      invariant Provision(outcomes, 0) == Provision(outcomes, i)
      invariant store.users == old(store.users) + [row] && userId == |store.users|
      invariant store.accounts == old(store.accounts) + NewAccounts(userId, i)
      invariant store.cards == old(store.cards) + NewCards(firstAccountId, i, req.fullName, random, now)
      invariant store.log == old(store.log) && store.audit == old(store.audit) && store.limits == old(store.limits)
    {
      var accountErr, cardErr := ProvisionRound(store, userId, i, user.fullName, random, outcomes, now);
      if accountErr.Some? {
        return user, Some(ServiceErrors.Translate(accountErr.value));
      }
      if cardErr.Some? {
        return EmptyUser, Some(ServiceErrors.Translate(cardErr.value));
      }
      assert NewAccounts(userId, i + 1) == NewAccounts(userId, i) + [AccountRow(userId, Currencies[i], 0.0, false)];
      assert NewCards(firstAccountId, i + 1, req.fullName, random, now)
          == NewCards(firstAccountId, i, req.fullName, random, now) + [RoundCard(firstAccountId + i, i, req.fullName, random, now)];
      i := i + 1;
    }

    var limitErr := store.CreateDailyLimitForUser(userId, DefaultDailyLimit, now, outcomes.limit);
    if limitErr.Some? {
      return user, Some(ServiceErrors.Translate(limitErr.value));
    }
    return user, None;
  }

  /** One round of Register's loop: the account in the round's currency,
      then its card. An account failure leaves both tables as they were; a
      card failure leaves the new account in place. */
  method ProvisionRound(store: Store, userId: int, round: nat, holderName: string, random: seq<byte>,
                        outcomes: InsertOutcomes, now: Instant) returns (accountErr: Option<Error>, cardErr: Option<Error>)
    requires round < |Currencies| && |random| == BytesPerCard * |Currencies|
    modifies store`accounts, store`cards
    ensures accountErr == AccountOutcome(outcomes, round)
    ensures accountErr.Some? ==> cardErr.None? && store.accounts == old(store.accounts) && store.cards == old(store.cards)
    ensures accountErr.None? ==>
      && store.accounts == old(store.accounts) + [AccountRow(userId, Currencies[round], 0.0, false)]
      && (CardOutcome(outcomes, round).Some? ==> cardErr == Some(Plain(CardFailedText)) && store.cards == old(store.cards))
      && (CardOutcome(outcomes, round).None? ==>
            cardErr.None? && store.cards == old(store.cards) + [RoundCard(|store.accounts|, round, holderName, random, now)])
  {
    var account := AccountRow(userId, Currencies[round], 0.0, false);
    var accountId;
    accountId, accountErr := store.CreateAccount(account, AccountOutcome(outcomes, round));
    if accountErr.Some? {
      return accountErr, None;
    }
    var at := BytesPerCard * round;
    var _, err := CreateCardForAccount(store, accountId, holderName, random[at..at + CardNumberDigits],
                                       random[at + CardNumberDigits..at + BytesPerCard], now, CardOutcome(outcomes, round));
    cardErr := err;
  }

  /** Provisioning stops with at most one account more than cards, and
      the limit is reached only when all three rounds succeed. */
  lemma ProvisionCounts(o: InsertOutcomes)
    ensures var s := Provision(o, 0);
      CardsMade(s) <= AccountsMade(s) <= CardsMade(s) + 1 && AccountsMade(s) <= |Currencies|
    ensures Provision(o, 0).AllProvisioned? <==> RoundSucceeds(o, 0) && RoundSucceeds(o, 1) && RoundSucceeds(o, 2)
  {
  }

  /** Every card created by a registration is issued on the account created
      in the same round, carries the user's full name, and has a 16-digit
      number starting with 4000 and a 3-digit CVV. */
  lemma CardsMatchAccounts(userId: int, firstAccountId: int, n: nat, holderName: string, random: seq<byte>, now: Instant, k: nat)
    requires n <= |Currencies| && |random| == BytesPerCard * |Currencies| && k < n
    ensures var card := NewCards(firstAccountId, n, holderName, random, now)[k];
      && card.accountId == firstAccountId + k
      && NewAccounts(userId, n)[k] == AccountRow(userId, Currencies[k], 0.0, false)
      && card.holder == holderName
      && |card.number| == 16 && card.number[..4] == CardPrefix && AllDigits(card.number)
      && |card.cvv| == 3 && AllDigits(card.cvv)
  {
    var card := NewCards(firstAccountId, n, holderName, random, now)[k];
    assert card == RoundCard(firstAccountId + k, k, holderName, random, now);
    var at := BytesPerCard * k;
    var digits := DigitsOf(random[at..at + CardNumberDigits]);
    assert |digits| == 12;
    assert card.number == CardPrefix + digits;
    assert card.number[..4] == CardPrefix;
    forall i | 0 <= i < |card.number|
      ensures IsDigit(card.number[i])
    {
      if i >= 4 {
        assert card.number[i] == digits[i - 4];
      }
    }
  }
}
