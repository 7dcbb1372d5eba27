/** The ledger service: one sequential state machine owning the accounts, the
    payments, the favorites and the account-ID counter. Every operation is a pure
    function from the state before the call to what the call returns together
    with the state after it. Where the source mutates a record through a pointer
    it found by a linear scan, the model replaces the element at the index that
    scan stops at. */
module Wallet {
  import opened Scan
  import opened Types

  /** The six sentinel errors the service returns. */
  datatype Error =
    | PhoneRegistered
    | AmountMustBePositive
    | AccountNotFound
    | PaymentNotFound
    | FavoriteNotFound
    | LowBalance

  datatype Result<+T> = Success(value: T) | Failure(error: Error)

  datatype Service = Service(
    nextAccountId: int,
    accounts: seq<Account>,
    payments: seq<Payment>,
    favorites: seq<Favorite>)

  /** What one call returns, paired with the service state after the call. */
  datatype Outcome<+T> = Outcome(result: Result<T>, post: Service)

  /** The zero value of the service, which is how the visible callers (the tests
      and the command-line program) create one. */
  function Empty(): Service {
    Service(0, [], [], [])
  }

  // The keys the lookups compare.

  function AccountKey(a: Account): int { a.id }
  function PhoneKey(a: Account): Phone { a.phone }
  function PaymentKey(p: Payment): string { p.id }
  function FavoriteKey(f: Favorite): string { f.id }

  /** `after` is `before` with the balance of account number `i` moved by `delta`
      and every other account untouched. */
  ghost predicate Adjusted(before: seq<Account>, after: seq<Account>, i: int, delta: Money) {
    && |after| == |before|
    && 0 <= i < |before|
    && after[i] == before[i].(balance := before[i].balance + delta)
    && forall j :: 0 <= j < |before| && j != i ==> after[j] == before[j]
  }

  /** `after` is `before` with payment number `k` set to FAIL and nothing else changed. */
  ghost predicate MarkedFailed(before: seq<Payment>, after: seq<Payment>, k: int) {
    && |after| == |before|
    && 0 <= k < |before|
    && after[k] == before[k].(status := Fail)
    && forall j :: 0 <= j < |before| && j != k ==> after[j] == before[j]
  }

  // Lookups.

  function FindAccountById(s: Service, id: int): (r: Result<Account>)
    ensures r.Failure? <==> !Has(s.accounts, AccountKey, id)
    ensures r.Failure? ==> r.error == AccountNotFound
    ensures r.Success? ==> exists i :: FirstAt(s.accounts, AccountKey, id, i) && r.value == s.accounts[i]
  {
    match FirstIndex(s.accounts, AccountKey, id)
    case None => Failure(AccountNotFound)
    case Some(i) => Success(s.accounts[i])
  }

  function FindPaymentById(s: Service, id: string): (r: Result<Payment>)
    ensures r.Failure? <==> !Has(s.payments, PaymentKey, id)
    ensures r.Failure? ==> r.error == PaymentNotFound
    ensures r.Success? ==> exists k :: FirstAt(s.payments, PaymentKey, id, k) && r.value == s.payments[k]
  {
    match FirstIndex(s.payments, PaymentKey, id)
    case None => Failure(PaymentNotFound)
    case Some(k) => Success(s.payments[k])
  }

  function FindFavorite(s: Service, id: string): (r: Result<Favorite>)
    ensures r.Failure? <==> !Has(s.favorites, FavoriteKey, id)
    ensures r.Failure? ==> r.error == FavoriteNotFound
    ensures r.Success? ==> exists k :: FirstAt(s.favorites, FavoriteKey, id, k) && r.value == s.favorites[k]
  {
    match FirstIndex(s.favorites, FavoriteKey, id)
    case None => Failure(FavoriteNotFound)
    case Some(k) => Success(s.favorites[k])
  }

  // Accounts.

  /** Registers `phone` under the next account ID with a zero balance. */
  function RegisterAccount(s: Service, phone: Phone): (o: Outcome<Account>)
    ensures Has(s.accounts, PhoneKey, phone) ==> o == Outcome(Failure(PhoneRegistered), s)
    ensures !Has(s.accounts, PhoneKey, phone) ==>
      && o.result == Success(Account(s.nextAccountId + 1, phone, 0))
      && o.post.nextAccountId == s.nextAccountId + 1
      && o.post.accounts == s.accounts + [o.result.value]
      && o.post.payments == s.payments
      && o.post.favorites == s.favorites
  {
    if FirstIndex(s.accounts, PhoneKey, phone).Some? then
      Outcome(Failure(PhoneRegistered), s)
    else
      var account := Account(s.nextAccountId + 1, phone, 0);
      Outcome(Success(account), s.(nextAccountId := s.nextAccountId + 1, accounts := s.accounts + [account]))
  }

  /** Credits `amount` to an account. Zero passes the amount guard, which rejects
      only negative amounts. */
  function Deposit(s: Service, accountId: int, amount: Money): (o: Outcome<()>)
    ensures o.result.Failure? ==> o.post == s
    ensures amount < 0 ==> o.result == Failure(AmountMustBePositive)
    ensures amount >= 0 && !Has(s.accounts, AccountKey, accountId) ==> o.result == Failure(AccountNotFound)
    ensures forall i :: amount >= 0 && FirstAt(s.accounts, AccountKey, accountId, i) ==>
      && o.result.Success?
      && Adjusted(s.accounts, o.post.accounts, i, amount)
      && o.post.payments == s.payments
      && o.post.favorites == s.favorites
      && o.post.nextAccountId == s.nextAccountId
  {
    if amount < 0 then
      Outcome(Failure(AmountMustBePositive), s)
    else
      match FirstIndex(s.accounts, AccountKey, accountId)
      case None => Outcome(Failure(AccountNotFound), s)
      case Some(i) =>
        var account := s.accounts[i];
        Outcome(Success(()), s.(accounts := s.accounts[i := account.(balance := account.balance + amount)]))
  }

  // Payments.

  /** Debits `amount` from an account and records an in-progress payment under
      `paymentId`, the identifier the source draws from a UUID generator. The
      guards run in the order amount, account, balance. */
  function Pay(s: Service, accountId: int, amount: Money, category: PaymentCategory, paymentId: string)
    : (o: Outcome<Payment>)
    ensures o.result.Failure? ==> o.post == s
    ensures amount < 0 ==> o.result == Failure(AmountMustBePositive)
    ensures amount >= 0 && !Has(s.accounts, AccountKey, accountId) ==> o.result == Failure(AccountNotFound)
    ensures forall i :: amount >= 0 && FirstAt(s.accounts, AccountKey, accountId, i) && s.accounts[i].balance < amount ==>
      o.result == Failure(LowBalance)
    ensures forall i :: amount >= 0 && FirstAt(s.accounts, AccountKey, accountId, i) && amount <= s.accounts[i].balance ==>
      && o.result == Success(Payment(paymentId, accountId, amount, category, InProgress))
      && Adjusted(s.accounts, o.post.accounts, i, -amount)
      && o.post.payments == s.payments + [o.result.value]
      && o.post.favorites == s.favorites
      && o.post.nextAccountId == s.nextAccountId
  {
    if amount < 0 then
      Outcome(Failure(AmountMustBePositive), s)
    else
      match FirstIndex(s.accounts, AccountKey, accountId)
      case None => Outcome(Failure(AccountNotFound), s)
      case Some(i) =>
        var account := s.accounts[i];
        if account.balance < amount then
          Outcome(Failure(LowBalance), s)
        else
          var payment := Payment(paymentId, accountId, amount, category, InProgress);
          Outcome(Success(payment), s.(
            accounts := s.accounts[i := account.(balance := account.balance - amount)],
            payments := s.payments + [payment]))
  }

  /** Marks a payment FAIL and refunds its amount to the owning account. The
      status is written before the account is looked up, so a missing account
      still leaves the payment marked; nothing prevents a second refund. */
  function Reject(s: Service, paymentId: string): (o: Outcome<()>)
    ensures !Has(s.payments, PaymentKey, paymentId) ==> o == Outcome(Failure(PaymentNotFound), s)
    ensures forall k :: FirstAt(s.payments, PaymentKey, paymentId, k) ==>
      && MarkedFailed(s.payments, o.post.payments, k)
      && o.post.favorites == s.favorites
      && o.post.nextAccountId == s.nextAccountId
      && (!Has(s.accounts, AccountKey, s.payments[k].accountId) ==>
            o.result == Failure(AccountNotFound) && o.post.accounts == s.accounts)
      && (forall i :: FirstAt(s.accounts, AccountKey, s.payments[k].accountId, i) ==>
            o.result.Success? && Adjusted(s.accounts, o.post.accounts, i, s.payments[k].amount))
  {
    match FirstIndex(s.payments, PaymentKey, paymentId)
    case None => Outcome(Failure(PaymentNotFound), s)
    case Some(k) =>
      var payment := s.payments[k].(status := Fail);
      var marked := s.(payments := s.payments[k := payment]);
      match FirstIndex(s.accounts, AccountKey, payment.accountId)
      case None => Outcome(Failure(AccountNotFound), marked)
      case Some(i) =>
        var account := s.accounts[i];
        Outcome(Success(()), marked.(accounts := s.accounts[i := account.(balance := account.balance + payment.amount)]))
  }

  /** Pays again what an earlier payment paid, under the new identifier `newPaymentId`. */
  function Repeat(s: Service, paymentId: string, newPaymentId: string): (o: Outcome<Payment>)
    ensures !Has(s.payments, PaymentKey, paymentId) ==> o == Outcome(Failure(PaymentNotFound), s)
    ensures forall k :: FirstAt(s.payments, PaymentKey, paymentId, k) ==>
      o == Pay(s, s.payments[k].accountId, s.payments[k].amount, s.payments[k].category, newPaymentId)
  {
    match FindPaymentById(s, paymentId)
    case Failure(e) => Outcome(Failure(e), s)
    case Success(payment) => Pay(s, payment.accountId, payment.amount, payment.category, newPaymentId)
  }

  // Favorites.

  /** Stores a copy of a payment's account, amount and category as a favorite
      called `name`, under `favoriteId`, the identifier the source draws from a
      UUID generator. */
  function FavoritePayment(s: Service, paymentId: string, name: string, favoriteId: string)
    : (o: Outcome<Favorite>)
    ensures !Has(s.payments, PaymentKey, paymentId) ==> o == Outcome(Failure(PaymentNotFound), s)
    ensures forall k :: FirstAt(s.payments, PaymentKey, paymentId, k) ==>
      && o.result == Success(Favorite(favoriteId, s.payments[k].accountId, name, s.payments[k].amount, s.payments[k].category))
      && o.post.favorites == s.favorites + [o.result.value]
      && o.post.accounts == s.accounts
      && o.post.payments == s.payments
      && o.post.nextAccountId == s.nextAccountId
  {
    match FindPaymentById(s, paymentId)
    case Failure(e) => Outcome(Failure(e), s)
    case Success(payment) =>
      var favorite := Favorite(favoriteId, payment.accountId, name, payment.amount, payment.category);
      Outcome(Success(favorite), s.(favorites := s.favorites + [favorite]))
  }

  /** Pays what a favorite stores, under `paymentId`. */
  function PayFromFavorite(s: Service, favoriteId: string, paymentId: string): (o: Outcome<Payment>)
    ensures !Has(s.favorites, FavoriteKey, favoriteId) ==> o == Outcome(Failure(FavoriteNotFound), s)
    ensures forall k :: FirstAt(s.favorites, FavoriteKey, favoriteId, k) ==>
      o == Pay(s, s.favorites[k].accountId, s.favorites[k].amount, s.favorites[k].category, paymentId)
  {
    match FindFavorite(s, favoriteId)
    case Failure(e) => Outcome(Failure(e), s)
    case Success(favorite) => Pay(s, favorite.accountId, favorite.amount, favorite.category, paymentId)
  }
}
