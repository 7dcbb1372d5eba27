/** Sequences of calls on the service, starting from the zero value. The UUIDs
    the source draws for new payments and favorites appear in the commands; a
    trace is fresh when every such identifier is unused at the moment it is drawn. */
module Trace {
  import opened Scan
  import opened Types
  import Wallet
  import opened Invariants

  datatype Command =
    | RegisterAccount(phone: Phone)
    | Deposit(accountId: int, amount: Money)
    | Pay(accountId: int, amount: Money, category: PaymentCategory, paymentId: string)
    | Reject(paymentId: string)
    | Repeat(paymentId: string, newPaymentId: string)
    | FavoritePayment(paymentId: string, name: string, favoriteId: string)
    | PayFromFavorite(favoriteId: string, paymentId: string)

  /** The service state after one call. */
  function Apply(s: Wallet.Service, c: Command): Wallet.Service {
    match c
    case RegisterAccount(phone) => Wallet.RegisterAccount(s, phone).post
    case Deposit(accountId, amount) => Wallet.Deposit(s, accountId, amount).post
    case Pay(accountId, amount, category, paymentId) => Wallet.Pay(s, accountId, amount, category, paymentId).post
    case Reject(paymentId) => Wallet.Reject(s, paymentId).post
    case Repeat(paymentId, newPaymentId) => Wallet.Repeat(s, paymentId, newPaymentId).post
    case FavoritePayment(paymentId, name, favoriteId) => Wallet.FavoritePayment(s, paymentId, name, favoriteId).post
    case PayFromFavorite(favoriteId, paymentId) => Wallet.PayFromFavorite(s, favoriteId, paymentId).post
  }

  /** The identifier a command draws is not yet in use. */
  ghost predicate Fresh(s: Wallet.Service, c: Command) {
    match c
    case Pay(_, _, _, paymentId) => !Has(s.payments, Wallet.PaymentKey, paymentId)
    case Repeat(_, newPaymentId) => !Has(s.payments, Wallet.PaymentKey, newPaymentId)
    case FavoritePayment(_, _, favoriteId) => !Has(s.favorites, Wallet.FavoriteKey, favoriteId)
    case PayFromFavorite(_, paymentId) => !Has(s.payments, Wallet.PaymentKey, paymentId)
    case _ => true
  }

  ghost predicate FreshTrace(s: Wallet.Service, cs: seq<Command>)
    decreases |cs|
  {
    |cs| == 0 || (Fresh(s, cs[0]) && FreshTrace(Apply(s, cs[0]), cs[1..]))
  }

  function Run(s: Wallet.Service, cs: seq<Command>): Wallet.Service
    decreases |cs|
  {
    if |cs| == 0 then s else Run(Apply(s, cs[0]), cs[1..])
  }

  lemma ApplyPreservesValid(s: Wallet.Service, c: Command)
    requires Valid(s)
    requires Fresh(s, c)
    ensures Valid(Apply(s, c))
  {
    match c
    case RegisterAccount(phone) => RegisterPreservesValid(s, phone);
    case Deposit(accountId, amount) => DepositPreservesValid(s, accountId, amount);
    case Pay(accountId, amount, category, paymentId) => PayPreservesValid(s, accountId, amount, category, paymentId);
    case Reject(paymentId) => RejectPreservesValid(s, paymentId);
    case Repeat(paymentId, newPaymentId) => RepeatPreservesValid(s, paymentId, newPaymentId);
    case FavoritePayment(paymentId, name, favoriteId) => FavoritePaymentPreservesValid(s, paymentId, name, favoriteId);
    case PayFromFavorite(favoriteId, paymentId) => PayFromFavoritePreservesValid(s, favoriteId, paymentId);
  }

  lemma {:induction false} RunPreservesValid(s: Wallet.Service, cs: seq<Command>)
    requires Valid(s)
    requires FreshTrace(s, cs)
    ensures Valid(Run(s, cs))
    decreases |cs|
  {
    if |cs| > 0 {
      ApplyPreservesValid(s, cs[0]);
      RunPreservesValid(Apply(s, cs[0]), cs[1..]);
    }
  }

  /** After any fresh trace from the zero value: balances and amounts are never
      negative, phones are unique, account IDs are 1..n in registration order,
      and every payment and favorite names an existing account. */
  lemma ReachableStatesAreValid(cs: seq<Command>)
    requires FreshTrace(Wallet.Empty(), cs)
    ensures var s := Run(Wallet.Empty(), cs);
      && (forall i :: 0 <= i < |s.accounts| ==> s.accounts[i].balance >= 0 && s.accounts[i].id == i + 1)
      && (forall k :: 0 <= k < |s.payments| ==>
            s.payments[k].amount >= 0 && Has(s.accounts, Wallet.AccountKey, s.payments[k].accountId))
      && (forall k :: 0 <= k < |s.favorites| ==>
            s.favorites[k].amount >= 0 && Has(s.accounts, Wallet.AccountKey, s.favorites[k].accountId))
      && PhonesUnique(s.accounts)
      && s.nextAccountId == |s.accounts|
  {
    EmptyIsValid();
    RunPreservesValid(Wallet.Empty(), cs);
    var s := Run(Wallet.Empty(), cs);
    forall k | 0 <= k < |s.payments|
      ensures Has(s.accounts, Wallet.AccountKey, s.payments[k].accountId)
    {
      SequentialLookup(s, s.payments[k].accountId);
    }
    forall k | 0 <= k < |s.favorites|
      ensures Has(s.accounts, Wallet.AccountKey, s.favorites[k].accountId)
    {
      SequentialLookup(s, s.favorites[k].accountId);
    }
  }
}
