/** The single-account withdrawal use case: look the account up, refuse an
    insufficient balance, warn an owner whose balance is already low, withdraw,
    persist. */
module WithdrawMoneyFeature {
  import opened Domain
  import opened Services

  /** What `Execute` does, given the state of the account the identifier
      resolved to (if any) when the call began. Every check reads the totals
      before the withdrawal. */
  function WithdrawRun(accountId: Guid, found: Option<AccountState>, amount: int): (r: Run)
    ensures |r.events| >= 1 && r.events[0] == Lookup(accountId)
    ensures r.outcome != Ok <==> r.events == [Lookup(accountId)]
    ensures r.outcome == Ok <==> r.events[|r.events| - 1].Updated?
  {
    var lookup := [Lookup(accountId)];
    match found
    case None => Run(AccountNotFound, lookup)
    case Some(a) =>
      if !a.Totals.HasSufficientBalance(amount) then Run(InsufficientFunds, lookup)
      else if a.Totals.HasLowFunds() && a.User.None? then Run(MissingUser, lookup)
      else
        var notices := if a.Totals.HasLowFunds() then [FundsLow(a.User.value.Email)] else [];
        Run(Ok, lookup + notices + [Updated(a.Id, a.Totals.AfterWithdrawal(amount))])
  }

  /** The withdrawal succeeds exactly when the account exists, its balance is
      strictly greater than the amount, and, if it is low, it has an owner to warn. */
  lemma WithdrawSucceedsWhen(accountId: Guid, found: Option<AccountState>, amount: int)
    ensures WithdrawRun(accountId, found, amount).outcome == Ok <==>
      found.Some? && found.value.Totals.Balance > amount &&
      (found.value.Totals.Balance < LowFundsThreshold ==> found.value.User.Some?)
    ensures WithdrawRun(accountId, found, amount).outcome == InsufficientFunds <==>
      found.Some? && found.value.Totals.Balance <= amount
  {
  }

  /** Every failure happens before any notice or persistence: the trace
      holds the one lookup and nothing else. */
  lemma WithdrawFailureHasNoEffect(accountId: Guid, found: Option<AccountState>, amount: int)
    requires WithdrawRun(accountId, found, amount).outcome != Ok
    ensures WithdrawRun(accountId, found, amount).events == [Lookup(accountId)]
    ensures Count(WithdrawRun(accountId, found, amount).events, UpdatedKind) == 0
    ensures Count(WithdrawRun(accountId, found, amount).events, FundsLowKind) == 0
  {
    CountSingle(Lookup(accountId), UpdatedKind);
    CountSingle(Lookup(accountId), FundsLowKind);
  }

  /** On success the account is looked up once and persisted once, last,
      with the balance and the withdrawn counter each lowered by the amount,
      the paid-in total as it was, and a balance that stays strictly positive. */
  lemma WithdrawSuccessPersistsOnce(accountId: Guid, found: Option<AccountState>, amount: int)
    requires WithdrawRun(accountId, found, amount).outcome == Ok
    ensures var r := WithdrawRun(accountId, found, amount);
      var t := found.value.Totals;
      && Count(r.events, LookupKind) == 1
      && Count(r.events, UpdatedKind) == 1
      && r.events[|r.events| - 1].Updated?
      && r.events[|r.events| - 1].id == found.value.Id
      && r.events[|r.events| - 1].totals.Balance == t.Balance - amount
      && r.events[|r.events| - 1].totals.Withdrawn == t.Withdrawn - amount
      && r.events[|r.events| - 1].totals.PaidIn == t.PaidIn
      && r.events[|r.events| - 1].totals.Balance > 0
  {
    var a := found.value;
    var notices := if a.Totals.HasLowFunds() then [FundsLow(a.User.value.Email)] else [];
    var last := Updated(a.Id, a.Totals.AfterWithdrawal(amount));
    CountOfShape(Lookup(accountId), notices, last, LookupKind);
    CountOfShape(Lookup(accountId), notices, last, UpdatedKind);
  }

  /** The low-funds notice goes out once, to the owner, exactly when the
      withdrawal goes ahead from a balance that was already below the
      threshold before it; the pay-in warning never does. */
  lemma WithdrawNotifiesLowFunds(accountId: Guid, found: Option<AccountState>, amount: int)
    ensures var r := WithdrawRun(accountId, found, amount);
      && Count(r.events, FundsLowKind) ==
           (if r.outcome == Ok && found.value.Totals.Balance < LowFundsThreshold then 1 else 0)
      && Count(r.events, ApproachingKind) == 0
      && (Count(r.events, FundsLowKind) == 1 ==> r.events[1] == FundsLow(found.value.User.value.Email))
  {
    var r := WithdrawRun(accountId, found, amount);
    if r.outcome == Ok {
      var a := found.value;
      var notices := if a.Totals.HasLowFunds() then [FundsLow(a.User.value.Email)] else [];
      var last := Updated(a.Id, a.Totals.AfterWithdrawal(amount));
      CountOfShape(Lookup(accountId), notices, last, FundsLowKind);
      CountOfShape(Lookup(accountId), notices, last, ApproachingKind);
    } else {
      WithdrawFailureHasNoEffect(accountId, found, amount);
      CountSingle(Lookup(accountId), ApproachingKind);
    }
  }

  /** The order of calls on success: the lookup, then the notice if any,
      then the one update; no notice follows the update. */
  lemma WithdrawOrder(accountId: Guid, found: Option<AccountState>, amount: int)
    requires WithdrawRun(accountId, found, amount).outcome == Ok
    ensures var r := WithdrawRun(accountId, found, amount);
      && r.events[0] == Lookup(accountId)
      && (|r.events| == 2 || |r.events| == 3)
      && (|r.events| == 3 ==> r.events[1].FundsLow?)
      && NoticesPrecedeUpdates(r.events)
  {
  }

  /** The counts of a successful withdrawal's trace. */
  lemma CountOfShape(first: Event, notices: seq<Event>, last: Event, k: Kind)
    requires first.Lookup? && last.Updated? && AllOfKind(notices, FundsLowKind)
    ensures Count([first] + notices + [last], k) ==
      match k
      case LookupKind => 1
      case FundsLowKind => |notices|
      case ApproachingKind => 0
      case UpdatedKind => 1
  {
    assert [first] + notices + [last] == [first] + notices + [] + [last];
    CountOfPieces([first], notices, [], [last], k);
  }

  /** The three withdrawals of the unit tests: a balance of exactly 500
      drawing 50 is updated once without a notice, even though it ends below
      500; 450 drawing 50 is warned once (it ends at 400); 25 drawing 50 is
      refused with no update. And two more cases: 1000 drawing 50 ends at 950
      with -50 withdrawn, and a balance equal to the amount is refused. */
  lemma WithdrawScenarios(id: Guid, user: Option<User>)
    ensures WithdrawRun(id, Some(AccountState(id, user, Totals(500, 0, 500))), 50)
         == Run(Ok, [Lookup(id), Updated(id, Totals(450, -50, 500))])
    ensures WithdrawRun(id, Some(AccountState(id, Some(User("test@email.com")), Totals(450, 0, 450))), 50)
         == Run(Ok, [Lookup(id), FundsLow("test@email.com"), Updated(id, Totals(400, -50, 450))])
    ensures WithdrawRun(id, Some(AccountState(id, user, Totals(25, 0, 25))), 50)
         == Run(InsufficientFunds, [Lookup(id)])
    ensures WithdrawRun(id, Some(AccountState(id, user, Totals(1000, 0, 0))), 50)
         == Run(Ok, [Lookup(id), Updated(id, Totals(950, -50, 0))])
    ensures WithdrawRun(id, Some(AccountState(id, user, Totals(50, 0, 0))), 50).outcome == InsufficientFunds
  {
  }

  class WithdrawMoney {
    const accountRepository: AccountRepository
    const notificationService: NotificationService

    constructor (accountRepository: AccountRepository, notificationService: NotificationService)
      ensures this.accountRepository == accountRepository
      ensures this.notificationService == notificationService
    {
      this.accountRepository := accountRepository;
      this.notificationService := notificationService;
    }

    /** Withdraws `amount` from the account `fromAccountId` resolves to. The
        outcome and the calls made are those of `WithdrawRun` on the account's
        state at entry; only that account changes, and only on success. */
    method Execute(fromAccountId: Guid, amount: int) returns (outcome: Outcome)
      requires notificationService.trace == accountRepository.trace
      modifies accountRepository.trace, accountRepository.accounts.Values
      ensures var r := WithdrawRun(fromAccountId, old(StateOf(accountRepository.accounts, fromAccountId)), amount);
        outcome == r.outcome &&
        accountRepository.trace.events == old(accountRepository.trace.events) + r.events
      ensures forall a | a in accountRepository.accounts.Values ::
        a.Id == old(a.Id) && a.User == old(a.User) &&
        a.Snapshot() ==
          if outcome == Ok && fromAccountId in accountRepository.accounts && a == accountRepository.accounts[fromAccountId]
          then old(a.Snapshot()).AfterWithdrawal(amount)
          else old(a.Snapshot())
    {
      var found := accountRepository.GetAccountById(fromAccountId);
      if found.None? {
        outcome := AccountNotFound;
        return;
      }
      var withdrawalAccount := found.value;

      if !withdrawalAccount.HasSufficientBalance(amount) {
        outcome := InsufficientFunds;
        return;
      }

      if withdrawalAccount.HasLowFunds() {
        if withdrawalAccount.User.None? {
          outcome := MissingUser;
          return;
        }
        notificationService.NotifyFundsLow(withdrawalAccount.User.value.Email);
      }

      withdrawalAccount.WithdrawFunds(amount);

      accountRepository.Update(withdrawalAccount);
      outcome := Ok;
    }
  }
}
