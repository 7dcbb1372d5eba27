/** The state invariants the ledger service keeps: sequential account IDs that
    match the counter, unique phones, non-negative balances and amounts, payments
    and favorites that name existing accounts, and unique payment and favorite
    identifiers as long as the identifier generator hands out fresh ones. */
module Invariants {
  import opened Scan
  import opened Types
  import opened Wallet

  /** Account number `i` (from 0) carries ID `i + 1`, and the counter holds the last ID issued. */
  ghost predicate SequentialIds(s: Service) {
    && s.nextAccountId == |s.accounts|
    && forall i :: 0 <= i < |s.accounts| ==> s.accounts[i].id == i + 1
  }

  ghost predicate PhonesUnique(accounts: seq<Account>) {
    forall i, j :: 0 <= i < j < |accounts| ==> accounts[i].phone != accounts[j].phone
  }

  ghost predicate BalancesNonNegative(accounts: seq<Account>) {
    forall i :: 0 <= i < |accounts| ==> accounts[i].balance >= 0
  }

  /** Every payment has a non-negative amount, names an issued account ID, and is
      either in progress or failed (no operation sets OK). */
  ghost predicate PaymentsWellFormed(s: Service) {
    forall k :: 0 <= k < |s.payments| ==>
      && s.payments[k].amount >= 0
      && 1 <= s.payments[k].accountId <= |s.accounts|
      && s.payments[k].status != Ok
  }

  ghost predicate PaymentIdsUnique(payments: seq<Payment>) {
    forall k, l :: 0 <= k < l < |payments| ==> payments[k].id != payments[l].id
  }

  ghost predicate FavoritesWellFormed(s: Service) {
    forall k :: 0 <= k < |s.favorites| ==>
      && s.favorites[k].amount >= 0
      && 1 <= s.favorites[k].accountId <= |s.accounts|
  }

  ghost predicate FavoriteIdsUnique(favorites: seq<Favorite>) {
    forall k, l :: 0 <= k < l < |favorites| ==> favorites[k].id != favorites[l].id
  }

  ghost predicate Valid(s: Service) {
    && SequentialIds(s)
    && PhonesUnique(s.accounts)
    && BalancesNonNegative(s.accounts)
    && PaymentsWellFormed(s)
    && PaymentIdsUnique(s.payments)
    && FavoritesWellFormed(s)
    && FavoriteIdsUnique(s.favorites)
  }

  lemma EmptyIsValid()
    ensures Valid(Empty())
  {
  }

  /** With sequential IDs, account `id` exists exactly when it is in 1..n, and the
      scan for it stops at position `id - 1`. */
  lemma SequentialLookup(s: Service, id: int)
    requires SequentialIds(s)
    ensures Has(s.accounts, AccountKey, id) <==> 1 <= id <= |s.accounts|
    ensures 1 <= id <= |s.accounts| ==> FirstAt(s.accounts, AccountKey, id, id - 1)
  {
    if Has(s.accounts, AccountKey, id) {
      var i :| 0 <= i < |s.accounts| && s.accounts[i].id == id;
      assert s.accounts[i].id == i + 1;
    }
    if 1 <= id <= |s.accounts| {
      assert s.accounts[id - 1].id == id;
    }
  }

  /** With unique payment identifiers, the scan for the payment stored at `k`
      stops at `k`. */
  lemma UniquePaymentLookup(payments: seq<Payment>, k: int)
    requires PaymentIdsUnique(payments)
    requires 0 <= k < |payments|
    ensures FirstAt(payments, PaymentKey, payments[k].id, k)
  {
  }

  lemma RegisterPreservesValid(s: Service, phone: Phone)
    requires Valid(s)
    ensures Valid(RegisterAccount(s, phone).post)
  {
    var post := RegisterAccount(s, phone).post;
    if !Has(s.accounts, PhoneKey, phone) {
      assert post.accounts == s.accounts + [Account(|s.accounts| + 1, phone, 0)];
      forall i, j | 0 <= i < j < |post.accounts|
        ensures post.accounts[i].phone != post.accounts[j].phone
      {
        if j == |s.accounts| {
          assert post.accounts[i] == s.accounts[i];
        }
      }
    }
  }

  lemma DepositPreservesValid(s: Service, accountId: int, amount: Money)
    requires Valid(s)
    ensures Valid(Deposit(s, accountId, amount).post)
  {
    SequentialLookup(s, accountId);
    var post := Deposit(s, accountId, amount).post;
    if amount >= 0 && 1 <= accountId <= |s.accounts| {
      assert Adjusted(s.accounts, post.accounts, accountId - 1, amount);
      forall i, j | 0 <= i < j < |post.accounts|
        ensures post.accounts[i].phone != post.accounts[j].phone
      {
        assert post.accounts[i].phone == s.accounts[i].phone;
        assert post.accounts[j].phone == s.accounts[j].phone;
      }
    }
  }

  lemma PayPreservesValid(s: Service, accountId: int, amount: Money, category: PaymentCategory, paymentId: string)
    requires Valid(s)
    requires !Has(s.payments, PaymentKey, paymentId)
    ensures Valid(Pay(s, accountId, amount, category, paymentId).post)
  {
    SequentialLookup(s, accountId);
    var o := Pay(s, accountId, amount, category, paymentId);
    if o.result.Success? {
      var i := accountId - 1;
      assert Adjusted(s.accounts, o.post.accounts, i, -amount);
      forall a, b | 0 <= a < b < |o.post.accounts|
        ensures o.post.accounts[a].phone != o.post.accounts[b].phone
      {
        assert o.post.accounts[a].phone == s.accounts[a].phone;
        assert o.post.accounts[b].phone == s.accounts[b].phone;
      }
      forall a | 0 <= a < |o.post.accounts|
        ensures o.post.accounts[a].id == a + 1
      {
        assert o.post.accounts[a].id == s.accounts[a].id;
      }
      forall k, l | 0 <= k < l < |o.post.payments|
        ensures o.post.payments[k].id != o.post.payments[l].id
      {
        if l == |s.payments| {
          assert o.post.payments[k] == s.payments[k];
        }
      }
    }
  }

  lemma RejectPreservesValid(s: Service, paymentId: string)
    requires Valid(s)
    ensures Valid(Reject(s, paymentId).post)
  {
    var o := Reject(s, paymentId);
    if Has(s.payments, PaymentKey, paymentId) {
      var r := FindPaymentById(s, paymentId);
      var k :| FirstAt(s.payments, PaymentKey, paymentId, k) && r.value == s.payments[k];
      var owner := s.payments[k].accountId;
      SequentialLookup(s, owner);
      assert MarkedFailed(s.payments, o.post.payments, k);
      assert Adjusted(s.accounts, o.post.accounts, owner - 1, s.payments[k].amount);
      forall a, b | 0 <= a < b < |o.post.accounts|
        ensures o.post.accounts[a].phone != o.post.accounts[b].phone
      {
        assert o.post.accounts[a].phone == s.accounts[a].phone;
        assert o.post.accounts[b].phone == s.accounts[b].phone;
      }
      forall a | 0 <= a < |o.post.accounts|
        ensures o.post.accounts[a].id == a + 1
      {
        assert o.post.accounts[a].id == s.accounts[a].id;
      }
      forall j, l | 0 <= j < l < |o.post.payments|
        ensures o.post.payments[j].id != o.post.payments[l].id
      {
        assert o.post.payments[j].id == s.payments[j].id;
        assert o.post.payments[l].id == s.payments[l].id;
      }
    }
  }

  lemma RepeatPreservesValid(s: Service, paymentId: string, newPaymentId: string)
    requires Valid(s)
    requires !Has(s.payments, PaymentKey, newPaymentId)
    ensures Valid(Repeat(s, paymentId, newPaymentId).post)
  {
    if Has(s.payments, PaymentKey, paymentId) {
      var r := FindPaymentById(s, paymentId);
      var k :| FirstAt(s.payments, PaymentKey, paymentId, k) && r.value == s.payments[k];
      PayPreservesValid(s, s.payments[k].accountId, s.payments[k].amount, s.payments[k].category, newPaymentId);
    }
  }

  lemma FavoritePaymentPreservesValid(s: Service, paymentId: string, name: string, favoriteId: string)
    requires Valid(s)
    requires !Has(s.favorites, FavoriteKey, favoriteId)
    ensures Valid(FavoritePayment(s, paymentId, name, favoriteId).post)
  {
    var o := FavoritePayment(s, paymentId, name, favoriteId);
    if Has(s.payments, PaymentKey, paymentId) {
      var r := FindPaymentById(s, paymentId);
      var k :| FirstAt(s.payments, PaymentKey, paymentId, k) && r.value == s.payments[k];
      assert o.post.favorites == s.favorites + [o.result.value];
      forall j, l | 0 <= j < l < |o.post.favorites|
        ensures o.post.favorites[j].id != o.post.favorites[l].id
      {
        if l == |s.favorites| {
          assert o.post.favorites[j] == s.favorites[j];
        }
      }
    }
  }

  lemma PayFromFavoritePreservesValid(s: Service, favoriteId: string, paymentId: string)
    requires Valid(s)
    requires !Has(s.payments, PaymentKey, paymentId)
    ensures Valid(PayFromFavorite(s, favoriteId, paymentId).post)
  {
    if Has(s.favorites, FavoriteKey, favoriteId) {
      var r := FindFavorite(s, favoriteId);
      var k :| FirstAt(s.favorites, FavoriteKey, favoriteId, k) && r.value == s.favorites[k];
      PayPreservesValid(s, s.favorites[k].accountId, s.favorites[k].amount, s.favorites[k].category, paymentId);
    }
  }
}
