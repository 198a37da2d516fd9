/** The daily limit and the overlimit fee: amounts are weighed in TJS, a
    user's spending today is compared with the user's daily amount, and 2%
    of the part above it (converted back to the operation's currency) is
    charged as a fee. */
module Limits {
  import opened Errs
  import opened Domain
  import opened Repository

  /** The service's exchange rates to TJS. */
  const CurrencyRates: map<string, real> := map[TJS := 1.0, USD := 9.21, EUR := 10.72]

  const FeePercent: real := 0.02

  const UnsupportedCurrencyText: string := "unsupported currency"

  /** Every rate is at least 1 TJS. */
  lemma RatesPositive(currency: string)
    requires currency in CurrencyRates
    ensures CurrencyRates[currency] >= 1.0
  {
  }

  /** convertToBaseCurrency: the amount in TJS, for the three priced
      currencies only. */
  function ConvertToBaseCurrency(amount: real, currency: string): (r: Result<real>)
    ensures r.Ok? <==> currency == TJS || currency == USD || currency == EUR
    ensures r.Err? ==> r.error == Plain(UnsupportedCurrencyText)
    ensures currency == TJS ==> r == Ok(amount)
    ensures r.Ok? ==> r.value / CurrencyRates[currency] == amount
  {
    if currency !in CurrencyRates then Err(Plain(UnsupportedCurrencyText))
    else Ok(amount * CurrencyRates[currency])
  }

  /** Conversion keeps the order of amounts and the sign of an amount. */
  lemma ConvertMonotone(a: real, b: real, currency: string)
    requires currency in CurrencyRates && a <= b
    ensures ConvertToBaseCurrency(a, currency).value <= ConvertToBaseCurrency(b, currency).value
    ensures a >= 0.0 ==> ConvertToBaseCurrency(a, currency).value >= a
  {
    var rate := CurrencyRates[currency];
    assert rate >= 1.0;
    assert a * rate <= b * rate;
    if a >= 0.0 {
      assert a * rate - a == a * (rate - 1.0);
    }
  }

  /** The repository weighs logged rows with the same table as the service;
      it counts anything else as TJS. */
  lemma UsageRateAgrees(currency: string)
    ensures currency in CurrencyRates ==> UsageRate(Some(currency)) == CurrencyRates[currency]
    ensures currency !in CurrencyRates ==> UsageRate(Some(currency)) == 1.0
  {
  }

  /** calculateOverlimitFee: 2% of the amount. */
  function CalculateOverlimitFee(amount: real): (fee: real)
    ensures fee * 50.0 == amount
    ensures amount >= 0.0 ==> 0.0 <= fee <= amount
  {
    amount * FeePercent
  }

  /** The service tests' example: an excess of 100 costs 2. */
  lemma FeeOfHundredIsTwo()
    ensures CalculateOverlimitFee(100.0) == 2.0
  {
  }

  /** isNewDay: the calendar dates differ; the time of day is ignored. */
  function IsNewDay(lastReset: Instant, now: Instant): (b: bool)
    ensures b <==> lastReset.date != now.date
  {
    now.date.day != lastReset.date.day || now.date.month != lastReset.date.month || now.date.year != lastReset.date.year
  }

  /** The fee for `amount` in a currency of rate `rate` when `used` TJS are
      already spent today against a ceiling of `dailyAmount` TJS. */
  function OverlimitFee(dailyAmount: real, used: real, amount: real, rate: real): real
    requires rate > 0.0
  {
    var total := used + amount * rate;
    if total > dailyAmount then CalculateOverlimitFee((total - dailyAmount) / rate) else 0.0
  }

  /** Zero up to the ceiling; above it 2% of the whole excess, in the
      operation's currency. */
  lemma OverlimitFeeIsTwoPercentOfExcess(dailyAmount: real, used: real, amount: real, rate: real)
    requires rate > 0.0
    ensures OverlimitFee(dailyAmount, used, amount, rate) >= 0.0
    ensures used + amount * rate <= dailyAmount ==> OverlimitFee(dailyAmount, used, amount, rate) == 0.0
    ensures used + amount * rate > dailyAmount ==>
      OverlimitFee(dailyAmount, used, amount, rate) * rate == FeePercent * (used + amount * rate - dailyAmount)
  {
    var total := used + amount * rate;
    if total > dailyAmount {
      var over := (total - dailyAmount) / rate;
      assert over * rate == total - dailyAmount;
      assert over > 0.0;
    }
  }

  /** Starting within the ceiling, the fee is at most 2% of the amount. */
  lemma OverlimitFeeAtMostTwoPercent(dailyAmount: real, used: real, amount: real, rate: real)
    requires rate > 0.0 && used <= dailyAmount && amount >= 0.0
    ensures OverlimitFee(dailyAmount, used, amount, rate) <= FeePercent * amount
  {
    var total := used + amount * rate;
    if total > dailyAmount {
      var over := (total - dailyAmount) / rate;
      assert over * rate == total - dailyAmount;
      assert over * rate <= amount * rate;
      assert over <= amount;
    }
  }

  /** Once today's usage is over the ceiling, the excess already spent is
      charged again: the fee exceeds 2% of the amount. */
  lemma OverlimitFeeRechargesPriorExcess(dailyAmount: real, used: real, amount: real, rate: real)
    requires rate > 0.0 && used > dailyAmount && amount > 0.0
    ensures OverlimitFee(dailyAmount, used, amount, rate) > FeePercent * amount
  {
    var total := used + amount * rate;
    var over := (total - dailyAmount) / rate;
    assert over * rate == total - dailyAmount;
    assert over * rate > amount * rate;
    assert over > amount;
  }

  /** Ceiling 1000 TJS, 950 TJS spent, 10 USD more: 42.1 TJS over the
      ceiling, so the fee is 2% of 42.1 / 9.21 USD. */
  lemma FeeExample()
    ensures OverlimitFee(1000.0, 950.0, 10.0, CurrencyRates[USD]) == 0.842 / 9.21
  {
  }

  /** What CheckLimitAndCalculateFee answers for `userId` spending `amount`
      in `currency` at `now`: an unsupported currency fails; a user with no
      limit row pays nothing; on a new day earlier spending counts as 0;
      otherwise a failing usage query fails the pricing. */
  function FeeFor(limits: map<int, LimitRow>, log: seq<TxRecord>, accounts: seq<AccountRow>,
                  userId: int, amount: real, currency: string, now: Instant): Result<real>
  {
    if currency !in CurrencyRates then Err(Plain(UnsupportedCurrencyText))
    else if userId !in limits then Ok(0.0)
    else
      var limit := limits[userId];
      if IsNewDay(limit.lastReset, now) then Ok(OverlimitFee(limit.dailyAmount, 0.0, amount, CurrencyRates[currency]))
      else if UsageScanFails(log, accounts, userId, now.date) then Err(Plain(UsageScanText))
      else Ok(OverlimitFee(limit.dailyAmount, TodayUsage(log, accounts, userId, now.date), amount, CurrencyRates[currency]))
  }

  /** The limits table after pricing a fee: only a new day with a limit row and
      a supported currency resets that row. */
  function LimitsAfterCheck(limits: map<int, LimitRow>, userId: int, currency: string, now: Instant): map<int, LimitRow> {
    if currency in CurrencyRates && userId in limits && IsNewDay(limits[userId].lastReset, now)
    then limits[userId := LimitRow(limits[userId].dailyAmount, now)]
    else limits
  }

  /** Pricing fails exactly for an unsupported currency and for a failing
      usage query; the fee is never negative and, for a user not already
      over the ceiling today, at most 2% of the amount. */
  lemma FeeForBounds(limits: map<int, LimitRow>, log: seq<TxRecord>, accounts: seq<AccountRow>,
                     userId: int, amount: real, currency: string, now: Instant)
    requires amount >= 0.0
    ensures FeeFor(limits, log, accounts, userId, amount, currency, now).Ok? <==>
      currency in CurrencyRates
      && !(userId in limits && !IsNewDay(limits[userId].lastReset, now) && UsageScanFails(log, accounts, userId, now.date))
    ensures var r := FeeFor(limits, log, accounts, userId, amount, currency, now);
      r.Err? ==> r.error == (if currency in CurrencyRates then Plain(UsageScanText) else Plain(UnsupportedCurrencyText))
    ensures var r := FeeFor(limits, log, accounts, userId, amount, currency, now);
      r.Ok? ==> r.value >= 0.0
    ensures var r := FeeFor(limits, log, accounts, userId, amount, currency, now);
      r.Ok? && userId in limits && limits[userId].dailyAmount >= 0.0
      && (IsNewDay(limits[userId].lastReset, now) || TodayUsage(log, accounts, userId, now.date) <= limits[userId].dailyAmount)
      ==> r.value <= FeePercent * amount
    ensures var r := FeeFor(limits, log, accounts, userId, amount, currency, now);
      r.Ok? && userId !in limits ==> r.value == 0.0
  {
    if currency in CurrencyRates && userId in limits {
      var limit := limits[userId];
      var used := if IsNewDay(limit.lastReset, now) then 0.0 else TodayUsage(log, accounts, userId, now.date);
      var rate := CurrencyRates[currency];
      OverlimitFeeIsTwoPercentOfExcess(limit.dailyAmount, used, amount, rate);
      if limit.dailyAmount >= 0.0 && (IsNewDay(limit.lastReset, now) || TodayUsage(log, accounts, userId, now.date) <= limit.dailyAmount) {
        OverlimitFeeAtMostTwoPercent(limit.dailyAmount, used, amount, rate);
      }
    }
  }

  /** Pricing resets nothing but the one row, and keeps its daily amount. */
  lemma LimitsAfterCheckTouchesOneRow(limits: map<int, LimitRow>, userId: int, currency: string, now: Instant, other: int)
    requires other in limits
    ensures other in LimitsAfterCheck(limits, userId, currency, now)
    ensures LimitsAfterCheck(limits, userId, currency, now)[other].dailyAmount == limits[other].dailyAmount
    ensures other != userId ==> LimitsAfterCheck(limits, userId, currency, now)[other] == limits[other]
    ensures !IsNewDay(LimitsAfterCheck(limits, userId, currency, now)[other].lastReset, now)
            || other != userId || currency !in CurrencyRates
  {
  }

  /** CheckLimitAndCalculateFee. The service's failures of the limit read,
      the reset and the usage query are the database's; only "no rows" and
      a usage query that cannot scan a row can come back here. */
  method CheckLimitAndCalculateFee(store: Store, userId: int, amount: real, currency: string, now: Instant)
    returns (fee: real, err: Option<Error>)
    modifies store`limits
    ensures var r := FeeFor(old(store.limits), store.log, store.accounts, userId, amount, currency, now);
      (r.Ok? ==> err.None? && fee == r.value) && (r.Err? ==> err == Some(r.error) && fee == 0.0)
    ensures store.limits == LimitsAfterCheck(old(store.limits), userId, currency, now)
  {
    var amountInTJS := ConvertToBaseCurrency(amount, currency);
    if amountInTJS.Err? {
      return 0.0, Some(amountInTJS.error);
    }

    var limit := store.DailyLimitByUserId(userId);
    if limit.Err? {
      var e := limit.error;
      return 0.0, if Text(e) == NoRowsText then None else Some(e);
    }

    var usedToday: real;
    if IsNewDay(limit.value.lastReset, now) {
      store.ResetDailyLimit(userId, now);
      usedToday := 0.0;
    } else {
      var usageErr;
      usedToday, usageErr := store.GetTodayUsageInTJS(userId, now);
      if usageErr.Some? {
        return 0.0, usageErr;
      }
    }

    var rate := CurrencyRates[currency];
    var total := usedToday + amountInTJS.value;
    if total > limit.value.dailyAmount {
      var overInCurrency := (total - limit.value.dailyAmount) / rate;
      return CalculateOverlimitFee(overInCurrency), None;
    }
    return 0.0, None;
  }
}
