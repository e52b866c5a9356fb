/**
 * The transfer engine: accounts are shared mutable objects, looked up by
 * identifier in the account store, locked in a fixed order, debited and
 * credited in place, and their owners notified afterwards.
 *
 * The two nested monitors form one atomic step here; the order in which
 * they would be taken is kept as the pure function `SortedSyncMonitors`,
 * with the properties that make that order deadlock-free.
 */
module FundsTransfer {
  import opened Wrappers
  import JavaStrings
  import opened TransferRequests
  import opened Ledger

  /** An account: an immutable identifier and a balance updated in place. */
  class Account {
    const accountId: string
    var balance: int

    constructor (accountId: string, balance: int)
      ensures this.accountId == accountId && this.balance == balance
    {
      this.accountId := accountId;
      this.balance := balance;
    }
  }

  /** What a notification tells its account: the counterparty and the amount. */
  datatype Message =
    | TransferredTo(recipientId: string, amount: int)
    | TransferredFrom(senderId: string, amount: int)

  /** One call of the notification service. */
  datatype Notification = Notification(account: Account, message: Message)

  /**
   * The order in which the two monitors are taken: `from` first when its
   * identifier compares below `to`'s, otherwise `to` first.
   */
  function SortedSyncMonitors(from: Account, to: Account): (r: (Account, Account))
    ensures (r.0 == from && r.1 == to) || (r.0 == to && r.1 == from)
    ensures JavaStrings.CompareTo(r.0.accountId, r.1.accountId) <= 0
  {
    JavaStrings.CompareToAntisymmetric(from.accountId, to.accountId);
    if JavaStrings.CompareTo(from.accountId, to.accountId) < 0 then (from, to) else (to, from)
  }

  /** The lock order does not depend on the direction of the transfer. */
  lemma SortedSyncMonitorsSymmetric(from: Account, to: Account)
    requires from.accountId != to.accountId
    ensures SortedSyncMonitors(from, to) == SortedSyncMonitors(to, from)
  {
    JavaStrings.CompareToAntisymmetric(from.accountId, to.accountId);
  }

  /** The identifier of the monitor a transfer between `t.0` and `t.1` takes first. */
  function HeldId(t: (Account, Account)): string
  {
    SortedSyncMonitors(t.0, t.1).0.accountId
  }

  /** The identifier of the monitor a transfer between `t.0` and `t.1` takes second. */
  function WantedId(t: (Account, Account)): string
  {
    SortedSyncMonitors(t.0, t.1).1.accountId
  }

  /**
   * A chain of transfers each holding its first monitor and waiting for its
   * second, which the next transfer in the chain holds as its first. Locks
   * are told apart by account identifier, which in a store is one-to-one
   * with the account objects. A self-transfer takes the same (reentrant)
   * monitor twice and never waits.
   */
  ghost predicate WaitChain(ts: seq<(Account, Account)>)
  {
    && |ts| > 0
    && (forall i :: 0 <= i < |ts| ==> HeldId(ts[i]) != WantedId(ts[i]))
    && (forall i :: 0 <= i < |ts| - 1 ==> WantedId(ts[i]) == HeldId(ts[i + 1]))
  }

  /** A waiting chain that closes: the last transfer waits for the monitor the first one holds. */
  ghost predicate WaitCycle(ts: seq<(Account, Account)>)
  {
    WaitChain(ts) && WantedId(ts[|ts| - 1]) == HeldId(ts[0])
  }

  /** Deadlock freedom of the lock order: no ring of transfers can wait on each other. */
  lemma NoWaitCycle(ts: seq<(Account, Account)>)
    ensures !WaitCycle(ts)
  {
    if WaitCycle(ts) {
      WaitChainIncreases(ts, |ts|);
    }
  }

  /** Along a waiting chain, every monitor waited for compares above the first one held. */
  lemma {:induction false} WaitChainIncreases(ts: seq<(Account, Account)>, k: nat)
    requires WaitChain(ts)
    requires 1 <= k <= |ts|
    ensures JavaStrings.CompareTo(HeldId(ts[0]), WantedId(ts[k - 1])) < 0
  {
    if k > 1 {
      WaitChainIncreases(ts, k - 1);
      JavaStrings.CompareToTransitive(HeldId(ts[0]), HeldId(ts[k - 1]), WantedId(ts[k - 1]));
    }
  }

  /**
   * The funds transfer service over the account store. `accounts` is what
   * the store returns for each identifier (absent identifiers return null);
   * `lookups` records the identifiers asked of the store and `outbox` the
   * calls made to the notification service, in order.
   */
  class FundsTransferService {
    const accounts: map<string, Account>
    var lookups: seq<string>
    var outbox: seq<Notification>

    /** Each identifier maps to the account with that identifier, so one identifier is one account. */
    ghost predicate Valid()
    {
      forall id :: id in accounts ==> accounts[id].accountId == id
    }

    /** The store's balances by identifier. */
    ghost function Balances(): Balances
      reads accounts.Values
    {
      map id | id in accounts :: accounts[id].balance
    }

    constructor (accounts: map<string, Account>)
      requires forall id :: id in accounts ==> accounts[id].accountId == id
      ensures Valid()
      ensures this.accounts == accounts && lookups == [] && outbox == []
    {
      this.accounts := accounts;
      lookups := [];
      outbox := [];
    }

    /** Asks the store for `accountId`; a missing account is `AccountNotFound`. */
    method GetAccountOrElseThrow(accountId: string) returns (r: Result<Account, TransferError>)
      modifies this`lookups
      ensures lookups == old(lookups) + [accountId]
      ensures accountId in accounts ==> r == Ok(accounts[accountId])
      ensures accountId !in accounts ==> r == Err(AccountNotFound)
    {
      lookups := lookups + [accountId];
      if accountId in accounts {
        r := Ok(accounts[accountId]);
      } else {
        r := Err(AccountNotFound);
      }
    }

    /** Debits `amount` when the balance covers it; otherwise `InsufficientBalance` and nothing is written. */
    method Withdraw(account: Account, amount: int) returns (r: Outcome)
      modifies account
      ensures r == (if old(account.balance) >= amount then Success else Failure(InsufficientBalance))
      ensures account.balance == if r.Success? then old(account.balance) - amount else old(account.balance)
    {
      var balance := account.balance;
      if balance >= amount {
        account.balance := balance - amount;
        r := Success;
      } else {
        r := Failure(InsufficientBalance);
      }
    }

    /** Credits `amount`. */
    method Deposit(account: Account, amount: int)
      modifies account
      ensures account.balance == old(account.balance) + amount
    {
      account.balance := account.balance + amount;
    }

    /**
     * The locked section: withdraw from `from`, then deposit to `to`. Both
     * balances change or neither does; the same account on both sides ends
     * where it started. Read back through the store, the balances become
     * those `Ledger.Transfer` computes.
     */
    method DoTransferFunds(from: Account, to: Account, amount: int) returns (r: Outcome)
      requires Valid()
      requires from.accountId in accounts && accounts[from.accountId] == from
      requires to.accountId in accounts && accounts[to.accountId] == to
      modifies from, to
      ensures r == (if old(from.balance) >= amount then Success else Failure(InsufficientBalance))
      ensures r.Failure? ==> from.balance == old(from.balance) && to.balance == old(to.balance)
      ensures r.Success? && from == to ==> from.balance == old(from.balance)
      ensures r.Success? && from != to ==>
        from.balance == old(from.balance) - amount && to.balance == old(to.balance) + amount
      ensures var spec := Transfer(old(Balances()), from.accountId, to.accountId, amount);
        r == spec.Outcome() && Balances() == spec.After(old(Balances()))
    {
      ghost var before := Balances();
      var monitors := SortedSyncMonitors(from, to);
      // monitors.0, then monitors.1, would be held from here to the end of the method
      r := Withdraw(from, amount);
      if r.Success? {
        Deposit(to, amount);
      }
      ghost var expected := Transfer(before, from.accountId, to.accountId, amount).After(before);
      forall id | id in accounts
        ensures accounts[id].balance == expected[id]
      {
        assert accounts[id] in accounts.Values;
      }
      assert Balances() == expected;
    }

    /** One call of the notification service, after the locked section. */
    method NotifyAboutTransfer(account: Account, message: Message)
      modifies this`outbox
      ensures outbox == old(outbox) + [Notification(account, message)]
    {
      outbox := outbox + [Notification(account, message)];
    }

    /**
     * Transfers `request.amount` from the sender to the recipient: the
     * store's balances become those of `Ledger.Transfer`, the store is looked
     * up for the sender and, only when it exists, for the recipient, and on
     * success the sender and then the recipient are notified.
     */
    method TransferFunds(request: TransferRequest) returns (r: Outcome)
      requires Valid() && request.IsComplete()
      modifies this`lookups, this`outbox, accounts.Values
      ensures var spec := Transfer(old(Balances()), request.senderAccountId.value,
                                   request.recipientAccountId.value, request.amount.value);
        && r == spec.Outcome()
        && Balances() == spec.After(old(Balances()))
      ensures lookups == old(lookups) +
        if request.senderAccountId.value in accounts
        then [request.senderAccountId.value, request.recipientAccountId.value]
        else [request.senderAccountId.value]
      ensures outbox == old(outbox) +
        if r.Failure? then []
        else [Notification(accounts[request.senderAccountId.value],
                           TransferredTo(request.recipientAccountId.value, request.amount.value)),
              Notification(accounts[request.recipientAccountId.value],
                           TransferredFrom(request.senderAccountId.value, request.amount.value))]
    {
      var senderId, recipientId, amount :=
        request.senderAccountId.value, request.recipientAccountId.value, request.amount.value;
      ghost var before := Balances();
      var fromLookup := GetAccountOrElseThrow(senderId);
      if fromLookup.Err? {
        assert Balances() == before && senderId !in before;
        return Failure(fromLookup.error);
      }
      var toLookup := GetAccountOrElseThrow(recipientId);
      if toLookup.Err? {
        assert Balances() == before && senderId in before && recipientId !in before;
        return Failure(toLookup.error);
      }
      var from, to := fromLookup.value, toLookup.value;
      assert from == accounts[senderId] && to == accounts[recipientId];

      r := DoTransferFunds(from, to, amount);
      if r.Success? {
        NotifyAboutTransfer(from, TransferredTo(to.accountId, amount));
        NotifyAboutTransfer(to, TransferredFrom(from.accountId, amount));
      }
    }
  }

  /** The store of the unit tests: accounts 1111 and 3333 with the given balances. */
  method TwoAccountStore(fromBalance: int, toBalance: int) returns (service: FundsTransferService, from: Account, to: Account)
    ensures fresh(service) && fresh(from) && fresh(to) && service.Valid()
    ensures service.accounts == map["1111" := from, "3333" := to]
    ensures from.accountId == "1111" && from.balance == fromBalance
    ensures to.accountId == "3333" && to.balance == toBalance
    ensures service.lookups == [] && service.outbox == []
  {
    from := new Account("1111", fromBalance);
    to := new Account("3333", toBalance);
    service := new FundsTransferService(map["1111" := from, "3333" := to]);
  }

  /** A sender missing from the store: not found, the recipient is never asked for, nobody is notified. */
  method MissingSenderScenario() returns (r: Outcome, lookups: seq<string>, notified: nat)
    ensures r == Failure(AccountNotFound) && lookups == ["1111"] && notified == 0
  {
    var to := new Account("3333", 10);
    var service := new FundsTransferService(map["3333" := to]);
    r := service.TransferFunds(TransferRequest(Some("1111"), Some("3333"), Some(10)));
    lookups, notified := service.lookups, |service.outbox|;
  }

  /** Balances 1 and 10, amount 10: insufficient balance, both accounts looked up, balances kept, nobody notified. */
  method InsufficientBalanceScenario() returns (r: Outcome, fromBalance: int, toBalance: int, lookups: seq<string>, notified: nat)
    ensures r == Failure(InsufficientBalance) && fromBalance == 1 && toBalance == 10
    ensures lookups == ["1111", "3333"] && notified == 0
  {
    var service, from, to := TwoAccountStore(1, 10);
    r := service.TransferFunds(TransferRequest(Some("1111"), Some("3333"), Some(10)));
    assert service.Balances() == map["1111" := 1, "3333" := 10];
    fromBalance, toBalance, lookups, notified := from.balance, to.balance, service.lookups, |service.outbox|;
  }

  /** Balances 1 and 10, amount 1: success with 0 and 11, both accounts looked up, sender then recipient notified once each. */
  method SuccessfulTransferScenario()
    returns (r: Outcome, from: Account, to: Account, lookups: seq<string>, notified: seq<Notification>)
    ensures r == Success && from.accountId == "1111" && to.accountId == "3333"
    ensures from.balance == 0 && to.balance == 11
    ensures lookups == ["1111", "3333"]
    ensures |notified| == 2
    ensures notified[0].account == from && notified[0].message == TransferredTo("3333", 1)
    ensures notified[1].account == to && notified[1].message == TransferredFrom("1111", 1)
  {
    var service;
    service, from, to := TwoAccountStore(1, 10);
    r := service.TransferFunds(TransferRequest(Some("1111"), Some("3333"), Some(1)));
    assert service.Balances() == map["1111" := 0, "3333" := 11];
    assert service.Balances()["1111"] == from.balance;
    lookups, notified := service.lookups, service.outbox;
  }
}
