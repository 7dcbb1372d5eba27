/** Properties that relate several calls on the ledger service: registration
    order, refunds, repeats, favorites, and the scenarios the repository's tests
    and command-line program walk through. */
module Properties {
  import opened Scan
  import opened Types
  import opened Wallet
  import opened Invariants

  // Registration.

  /** A successful registration issues ID n + 1 to the (n + 1)-th account, and
      the lookup by that ID finds the new account. */
  lemma RegisterIssuesNextId(s: Service, phone: Phone)
    requires Valid(s)
    requires !Has(s.accounts, PhoneKey, phone)
    ensures var o := RegisterAccount(s, phone);
      && o.result == Success(Account(|s.accounts| + 1, phone, 0))
      && FindAccountById(o.post, |s.accounts| + 1) == o.result
  {
    var o := RegisterAccount(s, phone);
    RegisterPreservesValid(s, phone);
    SequentialLookup(o.post, |s.accounts| + 1);
  }

  /** Registering the same phone twice: the second call fails and changes nothing. */
  lemma RegisterTwiceRejected(s: Service, phone: Phone)
    ensures var o1 := RegisterAccount(s, phone);
      var o2 := RegisterAccount(o1.post, phone);
      && o2 == Outcome(Failure(PhoneRegistered), o1.post)
      && |o1.post.accounts| <= |s.accounts| + 1
      && (!Has(s.accounts, PhoneKey, phone) ==> |o2.post.accounts| == |s.accounts| + 1)
  {
    var o1 := RegisterAccount(s, phone);
    if !Has(s.accounts, PhoneKey, phone) {
      assert o1.post.accounts[|s.accounts|].phone == phone;
    }
  }

  /** The state after registering `phones` one after another. */
  function RegisterAll(s: Service, phones: seq<Phone>): Service
    decreases |phones|
  {
    if |phones| == 0 then s else RegisterAll(RegisterAccount(s, phones[0]).post, phones[1..])
  }

  ghost predicate Distinct(phones: seq<Phone>) {
    forall a, b :: 0 <= a < b < |phones| ==> phones[a] != phones[b]
  }

  /** Registering distinct new phones from a state whose counter matches its
      account count appends one account per phone, with IDs continuing the count
      and zero balances. */
  lemma {:induction false} RegisterAllAppends(s: Service, phones: seq<Phone>)
    requires s.nextAccountId == |s.accounts|
    requires Distinct(phones)
    requires forall a :: 0 <= a < |phones| ==> !Has(s.accounts, PhoneKey, phones[a])
    ensures var t := RegisterAll(s, phones);
      && |t.accounts| == |s.accounts| + |phones|
      && t.accounts[..|s.accounts|] == s.accounts
      && t.nextAccountId == |t.accounts|
      && forall a :: 0 <= a < |phones| ==> t.accounts[|s.accounts| + a] == Account(|s.accounts| + a + 1, phones[a], 0)
    decreases |phones|
  {
    if |phones| > 0 {
      var s' := RegisterAccount(s, phones[0]).post;
      assert s'.accounts == s.accounts + [Account(|s.accounts| + 1, phones[0], 0)];
      forall a | 0 <= a < |phones[1..]|
        ensures !Has(s'.accounts, PhoneKey, phones[1..][a])
      {
        assert phones[1..][a] == phones[a + 1];
      }
      RegisterAllAppends(s', phones[1..]);
      var t := RegisterAll(s, phones);
      assert t == RegisterAll(s', phones[1..]);
      assert t.accounts[..|s.accounts|] == t.accounts[..|s'.accounts|][..|s.accounts|];
      forall a | 0 <= a < |phones|
        ensures t.accounts[|s.accounts| + a] == Account(|s.accounts| + a + 1, phones[a], 0)
      {
        if a == 0 {
          assert t.accounts[|s.accounts|] == t.accounts[..|s'.accounts|][|s.accounts|];
        } else {
          assert phones[1..][a - 1] == phones[a];
        }
      }
    }
  }

  /** From the zero value, the n-th registration of distinct phones gets ID n. */
  lemma NthRegistrationGetsIdN(phones: seq<Phone>)
    requires Distinct(phones)
    ensures var t := RegisterAll(Empty(), phones);
      && |t.accounts| == |phones|
      && forall a :: 0 <= a < |phones| ==> t.accounts[a] == Account(a + 1, phones[a], 0)
  {
    RegisterAllAppends(Empty(), phones);
  }

  // Lookups.

  lemma EmptyServiceFindsNothing(accountId: int, paymentId: string, favoriteId: string)
    ensures FindAccountById(Empty(), accountId) == Failure(AccountNotFound)
    ensures FindPaymentById(Empty(), paymentId) == Failure(PaymentNotFound)
    ensures FindFavorite(Empty(), favoriteId) == Failure(FavoriteNotFound)
    ensures Reject(Empty(), paymentId) == Outcome(Failure(PaymentNotFound), Empty())
  {
  }

  /** Under the invariant, the account lookup is positional: ID `id` is account
      number `id - 1`, and any other ID is not found. */
  lemma FindAccountIsPositional(s: Service, id: int)
    requires SequentialIds(s)
    ensures 1 <= id <= |s.accounts| ==> FindAccountById(s, id) == Success(s.accounts[id - 1])
    ensures !(1 <= id <= |s.accounts|) ==> FindAccountById(s, id) == Failure(AccountNotFound)
  {
    SequentialLookup(s, id);
    if 1 <= id <= |s.accounts| {
      var r := FindAccountById(s, id);
      var i :| FirstAt(s.accounts, AccountKey, id, i) && r.value == s.accounts[i];
    }
  }

  // Zero amounts.

  /** Both amount guards reject only negative amounts: depositing zero succeeds
      and leaves the state as it was, and paying zero records a zero payment. */
  lemma ZeroAmountAccepted(s: Service, accountId: int, category: PaymentCategory, paymentId: string)
    requires Has(s.accounts, AccountKey, accountId)
    requires BalancesNonNegative(s.accounts)
    ensures Deposit(s, accountId, 0) == Outcome(Success(()), s)
    ensures Pay(s, accountId, 0, category, paymentId).result == Success(Payment(paymentId, accountId, 0, category, InProgress))
  {
    var r := FindAccountById(s, accountId);
    var i :| FirstAt(s.accounts, AccountKey, accountId, i) && r.value == s.accounts[i];
    var post := Deposit(s, accountId, 0).post;
    assert Adjusted(s.accounts, post.accounts, i, 0);
    assert post.accounts == s.accounts;
  }

  // Refunds.

  /** Paying and then rejecting that payment restores every account exactly, and
      the payment, looked up again by its identifier, now reads FAIL. */
  lemma PayThenRejectRestoresBalance(s: Service, accountId: int, amount: Money, category: PaymentCategory, paymentId: string)
    requires Valid(s)
    requires !Has(s.payments, PaymentKey, paymentId)
    requires Pay(s, accountId, amount, category, paymentId).result.Success?
    ensures var paid := Pay(s, accountId, amount, category, paymentId).post;
      var rejected := Reject(paid, paymentId);
      && rejected.result == Success(())
      && rejected.post.accounts == s.accounts
      && FindPaymentById(rejected.post, paymentId) == Success(Payment(paymentId, accountId, amount, category, Fail))
  {
    var paid := Pay(s, accountId, amount, category, paymentId).post;
    SequentialLookup(s, accountId);
    var i := accountId - 1;
    PayPreservesValid(s, accountId, amount, category, paymentId);
    SequentialLookup(paid, accountId);
    var k := |s.payments|;
    UniquePaymentLookup(paid.payments, k);
    var rejected := Reject(paid, paymentId);
    assert Adjusted(s.accounts, paid.accounts, i, -amount);
    assert Adjusted(paid.accounts, rejected.post.accounts, i, amount);
    assert rejected.post.accounts == s.accounts;
    RejectPreservesValid(paid, paymentId);
    UniquePaymentLookup(rejected.post.payments, k);
    var r := FindPaymentById(rejected.post, paymentId);
    var k' :| FirstAt(rejected.post.payments, PaymentKey, paymentId, k') && r.value == rejected.post.payments[k'];
    assert k' == k;
  }

  /** Nothing stops a second rejection of the same payment: each one refunds the
      amount again, so the owner ends up credited twice. */
  lemma DoubleRejectRefundsTwice(s: Service, k: int)
    requires Valid(s)
    requires 0 <= k < |s.payments|
    ensures var p := s.payments[k];
      var once := Reject(s, p.id);
      var twice := Reject(once.post, p.id);
      && once.result == Success(())
      && twice.result == Success(())
      && |twice.post.accounts| == |s.accounts|
      && twice.post.accounts[p.accountId - 1].balance == s.accounts[p.accountId - 1].balance + 2 * p.amount
  {
    var p := s.payments[k];
    var i := p.accountId - 1;
    UniquePaymentLookup(s.payments, k);
    SequentialLookup(s, p.accountId);
    var once := Reject(s, p.id);
    assert MarkedFailed(s.payments, once.post.payments, k);
    assert Adjusted(s.accounts, once.post.accounts, i, p.amount);
    RejectPreservesValid(s, p.id);
    UniquePaymentLookup(once.post.payments, k);
    SequentialLookup(once.post, p.accountId);
    var twice := Reject(once.post, p.id);
    assert Adjusted(once.post.accounts, twice.post.accounts, i, p.amount);
  }

  /** Under the invariant every payment names an existing account, so the
      AccountNotFound branch of Reject is never taken. */
  lemma RejectNeverMissesAccount(s: Service, paymentId: string)
    requires Valid(s)
    ensures Reject(s, paymentId).result != Failure(AccountNotFound)
  {
    if Has(s.payments, PaymentKey, paymentId) {
      var r := FindPaymentById(s, paymentId);
      var k :| FirstAt(s.payments, PaymentKey, paymentId, k) && r.value == s.payments[k];
      SequentialLookup(s, s.payments[k].accountId);
    }
  }

  /** Outside the invariant, a payment whose account is missing is still marked
      FAIL when Reject reports AccountNotFound, because the status is written
      first; the accounts are left as they were. */
  lemma RejectOrphanPaymentStillFails(s: Service, k: int)
    requires PaymentIdsUnique(s.payments)
    requires 0 <= k < |s.payments|
    requires !Has(s.accounts, AccountKey, s.payments[k].accountId)
    ensures var o := Reject(s, s.payments[k].id);
      && o.result == Failure(AccountNotFound)
      && o.post.accounts == s.accounts
      && FindPaymentById(o.post, s.payments[k].id) == Success(s.payments[k].(status := Fail))
  {
    var p := s.payments[k];
    UniquePaymentLookup(s.payments, k);
    var o := Reject(s, p.id);
    assert MarkedFailed(s.payments, o.post.payments, k);
    forall j, l | 0 <= j < l < |o.post.payments|
      ensures o.post.payments[j].id != o.post.payments[l].id
    {
      assert o.post.payments[j].id == s.payments[j].id;
      assert o.post.payments[l].id == s.payments[l].id;
    }
    UniquePaymentLookup(o.post.payments, k);
    var r := FindPaymentById(o.post, p.id);
    var k' :| FirstAt(o.post.payments, PaymentKey, p.id, k') && r.value == o.post.payments[k'];
    assert k' == k;
  }

  /** The same, on a service holding one payment for an account that was never
      registered. */
  lemma RejectOrphanPaymentExample()
    ensures var s := Service(0, [], [Payment("p", 7, 5, "cafe", InProgress)], []);
      Reject(s, "p") == Outcome(Failure(AccountNotFound), s.(payments := [Payment("p", 7, 5, "cafe", Fail)]))
  {
  }

  // Repeats and favorites.

  /** A successful repeat records a new in-progress payment that copies the
      source's account, amount and category under a new identifier. */
  lemma RepeatCopiesSource(s: Service, k: int, newPaymentId: string)
    requires PaymentIdsUnique(s.payments)
    requires 0 <= k < |s.payments|
    requires !Has(s.payments, PaymentKey, newPaymentId)
    requires Repeat(s, s.payments[k].id, newPaymentId).result.Success?
    ensures var p := s.payments[k];
      var o := Repeat(s, p.id, newPaymentId);
      && o.result.value == Payment(newPaymentId, p.accountId, p.amount, p.category, InProgress)
      && o.result.value.id != p.id
      && o.post.payments == s.payments + [o.result.value]
  {
    var p := s.payments[k];
    UniquePaymentLookup(s.payments, k);
    var o := Pay(s, p.accountId, p.amount, p.category, newPaymentId);
    assert Has(s.accounts, AccountKey, p.accountId);
    var r := FindAccountById(s, p.accountId);
    var i :| FirstAt(s.accounts, AccountKey, p.accountId, i) && r.value == s.accounts[i];
  }

  /** A favorite is a snapshot: rejecting the payment it was made from leaves the
      stored favorite exactly as it was created. */
  lemma FavoriteSurvivesReject(s: Service, paymentId: string, name: string, favoriteId: string)
    requires Has(s.payments, PaymentKey, paymentId)
    requires !Has(s.favorites, FavoriteKey, favoriteId)
    ensures var fav := FavoritePayment(s, paymentId, name, favoriteId);
      && fav.result.Success?
      && FindFavorite(fav.post, favoriteId) == fav.result
      && FindFavorite(Reject(fav.post, paymentId).post, favoriteId) == fav.result
  {
    var fav := FavoritePayment(s, paymentId, name, favoriteId);
    var r := FindPaymentById(s, paymentId);
    var k :| FirstAt(s.payments, PaymentKey, paymentId, k) && r.value == s.payments[k];
    var n := |s.favorites|;
    assert FirstAt(fav.post.favorites, FavoriteKey, favoriteId, n);
    var rejected := Reject(fav.post, paymentId);
    assert FirstAt(fav.post.payments, PaymentKey, paymentId, k);
    assert rejected.post.favorites == fav.post.favorites;
    var f1 := FindFavorite(fav.post, favoriteId);
    var n1 :| FirstAt(fav.post.favorites, FavoriteKey, favoriteId, n1) && f1.value == fav.post.favorites[n1];
    assert n1 == n;
    var f2 := FindFavorite(rejected.post, favoriteId);
    var n2 :| FirstAt(rejected.post.favorites, FavoriteKey, favoriteId, n2) && f2.value == rejected.post.favorites[n2];
    assert n2 == n;
  }

  /** Paying from a favorite just made from a payment is the same call as
      repeating that payment. */
  lemma PayFromNewFavoriteIsRepeat(s: Service, paymentId: string, name: string, favoriteId: string, newPaymentId: string)
    requires !Has(s.favorites, FavoriteKey, favoriteId)
    ensures var fav := FavoritePayment(s, paymentId, name, favoriteId);
      fav.result.Success? ==>
        PayFromFavorite(fav.post, favoriteId, newPaymentId) == Repeat(fav.post, paymentId, newPaymentId)
  {
    var fav := FavoritePayment(s, paymentId, name, favoriteId);
    if fav.result.Success? {
      var r := FindPaymentById(s, paymentId);
      var k :| FirstAt(s.payments, PaymentKey, paymentId, k) && r.value == s.payments[k];
      assert FirstAt(fav.post.payments, PaymentKey, paymentId, k);
      assert FirstAt(fav.post.favorites, FavoriteKey, favoriteId, |s.favorites|);
    }
  }

  // Scenarios.

  /** Registering three phones and depositing 10 into the first, as the
      command-line program does: IDs 1, 2, 3 and a balance of 10 on account 1. */
  lemma CommandLineScenario()
    ensures var r1 := RegisterAccount(Empty(), "+992000000001");
      var d := Deposit(r1.post, r1.result.value.id, 10);
      var r2 := RegisterAccount(d.post, "+992000000002");
      var r3 := RegisterAccount(r2.post, "+992000000003");
      && r1.result == Success(Account(1, "+992000000001", 0))
      && d.result == Success(())
      && r2.result == Success(Account(2, "+992000000002", 0))
      && r3.result == Success(Account(3, "+992000000003", 0))
      && FindAccountById(r3.post, 1) == Success(Account(1, "+992000000001", 10))
  {
  }

  /** Register, deposit 2500, pay 2500 for "cafe", reject: the payment reads FAIL
      when looked up again and the balance is back at 2500. */
  lemma RejectScenario()
    ensures var r := RegisterAccount(Empty(), "000000001");
      var d := Deposit(r.post, 1, 2500);
      var p := Pay(d.post, 1, 2500, "cafe", "p1");
      var j := Reject(p.post, "p1");
      && p.result == Success(Payment("p1", 1, 2500, "cafe", InProgress))
      && FindPaymentById(p.post, "p1") == p.result
      && FindAccountById(p.post, 1) == Success(Account(1, "000000001", 0))
      && j.result == Success(())
      && FindPaymentById(j.post, "p1") == Success(Payment("p1", 1, 2500, "cafe", Fail))
      && FindAccountById(j.post, 1) == Success(Account(1, "000000001", 2500))
      && Pay(j.post, 1, 2600, "cafe", "p2") == Outcome(Failure(LowBalance), j.post)
  {
  }
}
