/** The two-account transfer use case: look both accounts up, refuse an
    insufficient source balance, warn a low source owner, refuse a destination
    without pay-in capacity, warn a destination near its limit, withdraw and
    deposit, persist the source and then the destination. */
module TransferMoneyFeature {
  import opened Domain
  import opened Services

  /** The totals both accounts end with after a successful transfer. */
  datatype Settled = Settled(from: Totals, to: Totals)

  /** When both identifiers resolve to one account object, the withdrawal and
      the deposit land on the same totals, one after the other. */
  function Settle(from: Totals, to: Totals, aliased: bool, amount: int): (r: Settled)
    ensures r.from.Withdrawn == from.Withdrawn - amount
    ensures r.to.PaidIn == (if aliased then from.PaidIn else to.PaidIn) + amount
    ensures aliased ==> r.from == r.to && r.from.Balance == from.Balance
    ensures !aliased ==> r.from.Balance + r.to.Balance == from.Balance + to.Balance
  {
    if aliased then
      var both := from.AfterWithdrawal(amount).AfterDeposit(amount);
      Settled(both, both)
    else
      Settled(from.AfterWithdrawal(amount), to.AfterDeposit(amount))
  }

  /** Both identifiers resolve to the same account object. */
  predicate Aliased(accounts: map<Guid, Account>, fromAccountId: Guid, toAccountId: Guid) {
    fromAccountId in accounts && toAccountId in accounts && accounts[fromAccountId] == accounts[toAccountId]
  }

  /** The source's checks (balance, then the low-funds notice), on its
      state before the transfer. */
  function SourcePhase(f: AccountState, amount: int): (r: Run)
    ensures r.outcome == InsufficientFunds <==> f.Totals.Balance <= amount
    ensures r.outcome == MissingUser <==>
      f.Totals.Balance > amount && f.Totals.Balance < LowFundsThreshold && f.User.None?
    ensures r.events != [] <==> r.outcome == Ok && f.Totals.Balance < LowFundsThreshold
    ensures r.events != [] ==> r.events == [FundsLow(f.User.value.Email)]
    ensures r.outcome in {Ok, InsufficientFunds, MissingUser}
  {
    if !f.Totals.HasSufficientBalance(amount) then Run(InsufficientFunds, [])
    else if !f.Totals.HasLowFunds() then Run(Ok, [])
    else if f.User.None? then Run(MissingUser, [])
    else Run(Ok, [FundsLow(f.User.value.Email)])
  }

  /** The destination's checks (pay-in capacity, then the pay-in warning),
      on its state before the transfer. */
  function DestinationPhase(t: AccountState, amount: int): (r: Run)
    ensures r.outcome == PayInLimitReached <==> t.Totals.PaidIn + amount >= PayInLimit
    ensures r.outcome == MissingUser <==>
      t.Totals.PaidIn + amount < PayInLimit && t.Totals.PaidIn + amount > PayInLimit - PayInLimitThreshold &&
      t.User.None?
    ensures r.events != [] <==> r.outcome == Ok && t.Totals.PaidIn + amount > PayInLimit - PayInLimitThreshold
    ensures r.events != [] ==> r.events == [ApproachingPayInLimit(t.User.value.Email)]
    ensures r.outcome in {Ok, PayInLimitReached, MissingUser}
  {
    if !t.Totals.HasSufficientPayInCapacity(amount) then Run(PayInLimitReached, [])
    else if !t.Totals.IsNearPayInLimit(amount) then Run(Ok, [])
    else if t.User.None? then Run(MissingUser, [])
    else Run(Ok, [ApproachingPayInLimit(t.User.value.Email)])
  }

  /** What `Execute` does, given the states (if any) the two identifiers
      resolved to when the call began. Every check reads the totals before
      either account is changed. An identifier that does not resolve ends the
      call at its own lookup, as a lookup failure raised by the repository. */
  function TransferRun(fromAccountId: Guid, toAccountId: Guid,
                       from: Option<AccountState>, to: Option<AccountState>,
                       aliased: bool, amount: int): (r: Run)
    ensures |r.events| >= 1 && r.events[0] == Lookup(fromAccountId)
    ensures r.outcome == Ok <==> r.events[|r.events| - 1].Updated?
  {
    match from
    case None => Run(AccountNotFound, [Lookup(fromAccountId)])
    case Some(f) =>
      var lookups := [Lookup(fromAccountId), Lookup(toAccountId)];
      match to
      case None => Run(AccountNotFound, lookups)
      case Some(t) =>
        var p := SourcePhase(f, amount);
        if p.outcome != Ok then Run(p.outcome, lookups + p.events)
        else
          var q := DestinationPhase(t, amount);
          if q.outcome != Ok then Run(q.outcome, lookups + p.events + q.events)
          else
            var s := Settle(f.Totals, t.Totals, aliased, amount);
            Run(Ok, lookups + p.events + q.events + [Updated(f.Id, s.from)] + [Updated(t.Id, s.to)])
  }

  /** The source passes its balance check and its low-funds notice is sent. */
  predicate LowNoticeSent(from: Option<AccountState>, to: Option<AccountState>, amount: int) {
    from.Some? && to.Some? && from.value.Totals.HasSufficientBalance(amount) &&
    from.value.Totals.HasLowFunds() && from.value.User.Some?
  }

  /** How many calls of each kind a transfer makes: one or two lookups, the
      low-funds notice exactly when the source check passed on a low balance
      (whatever the destination check then decides), the pay-in warning only
      on success, and two updates exactly on success. */
  lemma {:induction false} TransferCounts(fromAccountId: Guid, toAccountId: Guid,
                                          from: Option<AccountState>, to: Option<AccountState>,
                                          aliased: bool, amount: int)
    ensures var r := TransferRun(fromAccountId, toAccountId, from, to, aliased, amount);
      && Count(r.events, LookupKind) == (if from.Some? then 2 else 1)
      && Count(r.events, FundsLowKind) == (if LowNoticeSent(from, to, amount) then 1 else 0)
      && Count(r.events, ApproachingKind) ==
           (if r.outcome == Ok && to.value.Totals.IsNearPayInLimit(amount) then 1 else 0)
      && Count(r.events, UpdatedKind) == (if r.outcome == Ok then 2 else 0)
  {
    var r := TransferRun(fromAccountId, toAccountId, from, to, aliased, amount);
    var lookups := if from.None? then [Lookup(fromAccountId)] else [Lookup(fromAccountId), Lookup(toAccountId)];
    var low := if LowNoticeSent(from, to, amount) then [FundsLow(from.value.User.value.Email)] else [];
    var near := if r.outcome == Ok && to.value.Totals.IsNearPayInLimit(amount)
                then [ApproachingPayInLimit(to.value.User.value.Email)] else [];
    var ups := if r.outcome == Ok
               then var s := Settle(from.value.Totals, to.value.Totals, aliased, amount);
                    [Updated(from.value.Id, s.from), Updated(to.value.Id, s.to)]
               else [];
    assert r.events == lookups + low + near + ups;
    CountOfPieces(lookups, low, near, ups, LookupKind);
    CountOfPieces(lookups, low, near, ups, FundsLowKind);
    CountOfPieces(lookups, low, near, ups, ApproachingKind);
    CountOfPieces(lookups, low, near, ups, UpdatedKind);
  }

  /** Both lookups, source first, come before any check: once the source
      resolves, every path records exactly the two lookups first. */
  lemma TransferLooksUpBothFirst(fromAccountId: Guid, toAccountId: Guid,
                                 from: Option<AccountState>, to: Option<AccountState>,
                                 aliased: bool, amount: int)
    ensures var r := TransferRun(fromAccountId, toAccountId, from, to, aliased, amount);
      && (from.None? ==> r == Run(AccountNotFound, [Lookup(fromAccountId)]))
      && (from.Some? ==> |r.events| >= 2 && r.events[..2] == [Lookup(fromAccountId), Lookup(toAccountId)])
      && Count(r.events, LookupKind) == (if from.Some? then 2 else 1)
  {
    TransferCounts(fromAccountId, toAccountId, from, to, aliased, amount);
  }

  /** The transfer succeeds exactly when both accounts exist, the source
      balance strictly exceeds the amount, the destination's paid-in total
      plus the amount stays strictly under the limit, and every owner that
      must be warned is present. Each refusal is named by its own check. */
  lemma TransferSucceedsWhen(fromAccountId: Guid, toAccountId: Guid,
                             from: Option<AccountState>, to: Option<AccountState>,
                             aliased: bool, amount: int)
    ensures var r := TransferRun(fromAccountId, toAccountId, from, to, aliased, amount);
      && (r.outcome == Ok <==>
            from.Some? && to.Some? &&
            from.value.Totals.Balance > amount &&
            (from.value.Totals.Balance < LowFundsThreshold ==> from.value.User.Some?) &&
            to.value.Totals.PaidIn + amount < PayInLimit &&
            (to.value.Totals.PaidIn + amount > PayInLimit - PayInLimitThreshold ==> to.value.User.Some?))
      && (r.outcome == InsufficientFunds <==>
            from.Some? && to.Some? && from.value.Totals.Balance <= amount)
      && (r.outcome == PayInLimitReached <==>
            from.Some? && to.Some? && from.value.Totals.Balance > amount &&
            (from.value.Totals.Balance < LowFundsThreshold ==> from.value.User.Some?) &&
            to.value.Totals.PaidIn + amount >= PayInLimit)
  {
  }

  /** An insufficient source balance stops the transfer after the two
      lookups: no notice, no update. */
  lemma TransferInsufficientFunds(fromAccountId: Guid, toAccountId: Guid,
                                  from: Option<AccountState>, to: Option<AccountState>,
                                  aliased: bool, amount: int)
    requires TransferRun(fromAccountId, toAccountId, from, to, aliased, amount).outcome == InsufficientFunds
    ensures TransferRun(fromAccountId, toAccountId, from, to, aliased, amount).events
         == [Lookup(fromAccountId), Lookup(toAccountId)]
  {
  }

  /** A destination without pay-in capacity stops the transfer with no
      update and no pay-in warning, but after the source's low-funds notice,
      which stays sent. */
  lemma TransferPayInLimitReached(fromAccountId: Guid, toAccountId: Guid,
                                  from: Option<AccountState>, to: Option<AccountState>,
                                  aliased: bool, amount: int)
    requires TransferRun(fromAccountId, toAccountId, from, to, aliased, amount).outcome == PayInLimitReached
    ensures var r := TransferRun(fromAccountId, toAccountId, from, to, aliased, amount);
      && r.events == [Lookup(fromAccountId), Lookup(toAccountId)] +
           (if from.value.Totals.HasLowFunds() then [FundsLow(from.value.User.value.Email)] else [])
      && Count(r.events, UpdatedKind) == 0
      && Count(r.events, ApproachingKind) == 0
  {
    TransferCounts(fromAccountId, toAccountId, from, to, aliased, amount);
  }

  /** No failure persists anything. */
  lemma TransferFailureNoUpdate(fromAccountId: Guid, toAccountId: Guid,
                                from: Option<AccountState>, to: Option<AccountState>,
                                aliased: bool, amount: int)
    requires TransferRun(fromAccountId, toAccountId, from, to, aliased, amount).outcome != Ok
    ensures Count(TransferRun(fromAccountId, toAccountId, from, to, aliased, amount).events, UpdatedKind) == 0
    ensures Count(TransferRun(fromAccountId, toAccountId, from, to, aliased, amount).events, ApproachingKind) == 0
  {
    TransferCounts(fromAccountId, toAccountId, from, to, aliased, amount);
  }

  /** On success between two distinct accounts the last two calls persist
      the source and then the destination, each once: the source's balance
      and withdrawn counter drop by the amount, the destination's balance and
      paid-in total rise by it, the other counters stay, and the sum of the
      two balances is conserved. */
  lemma TransferSuccessMovesAmount(fromAccountId: Guid, toAccountId: Guid,
                                   from: Option<AccountState>, to: Option<AccountState>,
                                   amount: int)
    requires TransferRun(fromAccountId, toAccountId, from, to, false, amount).outcome == Ok
    ensures var r := TransferRun(fromAccountId, toAccountId, from, to, false, amount);
      var n := |r.events|;
      var f, t := from.value.Totals, to.value.Totals;
      && n >= 4 && Count(r.events, UpdatedKind) == 2
      && r.events[n - 2].Updated? && r.events[n - 2].id == from.value.Id
      && r.events[n - 1].Updated? && r.events[n - 1].id == to.value.Id
      && var f', t' := r.events[n - 2].totals, r.events[n - 1].totals;
      && f'.Balance == f.Balance - amount && f'.Withdrawn == f.Withdrawn - amount && f'.PaidIn == f.PaidIn
      && t'.Balance == t.Balance + amount && t'.PaidIn == t.PaidIn + amount && t'.Withdrawn == t.Withdrawn
      && f'.Balance + t'.Balance == f.Balance + t.Balance
      && f'.Balance > 0
  {
    TransferCounts(fromAccountId, toAccountId, from, to, false, amount);
  }

  /** A successful transfer from an account to itself leaves its balance as
      it was, lowers its withdrawn counter and raises its paid-in total by
      the amount, and persists that one state twice; the whole run is the two
      lookups, the notices the two checks send, and the two updates. */
  lemma TransferToSameAccount(accountId: Guid, a: AccountState, amount: int)
    requires TransferRun(accountId, accountId, Some(a), Some(a), true, amount).outcome == Ok
    ensures var r := TransferRun(accountId, accountId, Some(a), Some(a), true, amount);
      var n := |r.events|;
      var both := Totals(a.Totals.Balance, a.Totals.Withdrawn - amount, a.Totals.PaidIn + amount);
      && n >= 4 && Count(r.events, UpdatedKind) == 2
      && r.events[n - 2] == Updated(a.Id, both)
      && r.events[n - 1] == Updated(a.Id, both)
      && r.events == [Lookup(accountId), Lookup(accountId)] + SourcePhase(a, amount).events +
                     DestinationPhase(a, amount).events + [Updated(a.Id, both), Updated(a.Id, both)]
  {
    TransferCounts(accountId, accountId, Some(a), Some(a), true, amount);
  }

  /** The pay-in warning goes out once, to the destination's owner, exactly
      when the transfer goes ahead and the destination's paid-in total plus
      the amount exceeds 3500. */
  lemma TransferNotifiesNearLimit(fromAccountId: Guid, toAccountId: Guid,
                                  from: Option<AccountState>, to: Option<AccountState>,
                                  aliased: bool, amount: int)
    ensures var r := TransferRun(fromAccountId, toAccountId, from, to, aliased, amount);
      && Count(r.events, ApproachingKind) ==
           (if r.outcome == Ok && to.value.Totals.PaidIn + amount > 3500 then 1 else 0)
      && (Count(r.events, ApproachingKind) == 1 ==>
            ApproachingPayInLimit(to.value.User.value.Email) in r.events)
  {
    TransferCounts(fromAccountId, toAccountId, from, to, aliased, amount);
  }

  /** The low-funds notice goes out once, to the source's owner, exactly when
      the source check passed on a pre-transfer balance below 500, also when
      the destination check then refuses the transfer. */
  lemma TransferNotifiesLowFunds(fromAccountId: Guid, toAccountId: Guid,
                                 from: Option<AccountState>, to: Option<AccountState>,
                                 aliased: bool, amount: int)
    ensures var r := TransferRun(fromAccountId, toAccountId, from, to, aliased, amount);
      && Count(r.events, FundsLowKind) ==
           (if from.Some? && to.Some? && from.value.User.Some? &&
               from.value.Totals.Balance > amount && from.value.Totals.Balance < 500 then 1 else 0)
      && (Count(r.events, FundsLowKind) == 1 ==>
            |r.events| >= 3 && r.events[2] == FundsLow(from.value.User.value.Email))
  {
    TransferCounts(fromAccountId, toAccountId, from, to, aliased, amount);
  }

  /** Every notice precedes every update, and the low-funds notice precedes
      the pay-in warning. */
  lemma TransferOrder(fromAccountId: Guid, toAccountId: Guid,
                      from: Option<AccountState>, to: Option<AccountState>,
                      aliased: bool, amount: int)
    ensures var r := TransferRun(fromAccountId, toAccountId, from, to, aliased, amount);
      && NoticesPrecedeUpdates(r.events)
      && forall i, j ::
           0 <= i < |r.events| && 0 <= j < |r.events| && r.events[i].FundsLow? && r.events[j].ApproachingPayInLimit?
           ==> i < j
  {
  }

  /** The transfers the unit tests exercise, each of 50 from a source with
      a balance of 1000 to a destination with a balance of 1000 unless stated:
      to a destination that has paid in nothing (the balances end at 950 and
      1050, both persisted); from a balance of 25 (refused); to a destination
      that has paid in 3960 (refused, 4010 is not under 4000); from a balance
      of 400 (warned once); to destinations that have paid in 3550 and 3475
      (the destination's owner is warned once, as the third call, and both
      accounts are persisted). */
  lemma TransferScenarios(fromId: Guid, toId: Guid, fromUser: Option<User>, toUser: Option<User>)
    requires fromId != toId
    ensures TransferRun(fromId, toId, Some(AccountState(fromId, fromUser, Totals(1000, 0, 0))),
                        Some(AccountState(toId, toUser, Totals(1000, 0, 0))), false, 50)
         == Run(Ok, [Lookup(fromId), Lookup(toId),
                     Updated(fromId, Totals(950, -50, 0)), Updated(toId, Totals(1050, 0, 50))])
    ensures TransferRun(fromId, toId, Some(AccountState(fromId, fromUser, Totals(25, 0, 0))),
                        Some(AccountState(toId, toUser, Totals(1000, 0, 0))), false, 50)
         == Run(InsufficientFunds, [Lookup(fromId), Lookup(toId)])
    ensures TransferRun(fromId, toId, Some(AccountState(fromId, fromUser, Totals(1000, 0, 0))),
                        Some(AccountState(toId, toUser, Totals(1000, 0, 3960))), false, 50)
         == Run(PayInLimitReached, [Lookup(fromId), Lookup(toId)])
    ensures TransferRun(fromId, toId, Some(AccountState(fromId, Some(User("test@email.com")), Totals(400, 0, 0))),
                        Some(AccountState(toId, toUser, Totals(1000, 0, 0))), false, 50).events
         == [Lookup(fromId), Lookup(toId), FundsLow("test@email.com"),
             Updated(fromId, Totals(350, -50, 0)), Updated(toId, Totals(1050, 0, 50))]
    ensures TransferRun(fromId, toId, Some(AccountState(fromId, fromUser, Totals(1000, 0, 0))),
                        Some(AccountState(toId, Some(User("test@email.com")), Totals(1000, 0, 3550))), false, 50)
         == Run(Ok, [Lookup(fromId), Lookup(toId), ApproachingPayInLimit("test@email.com"),
                     Updated(fromId, Totals(950, -50, 0)), Updated(toId, Totals(1050, 0, 3600))])
    ensures TransferRun(fromId, toId, Some(AccountState(fromId, fromUser, Totals(1000, 0, 0))),
                        Some(AccountState(toId, Some(User("test@email.com")), Totals(1000, 0, 3475))), false, 50)
         == Run(Ok, [Lookup(fromId), Lookup(toId), ApproachingPayInLimit("test@email.com"),
                     Updated(fromId, Totals(950, -50, 0)), Updated(toId, Totals(1050, 0, 3525))])
  {
  }

  /** The source does not check the sign of the amount: a negative transfer
      is accepted and moves money from the destination to the source, taking
      the destination's balance below zero and lowering its paid-in total. */
  lemma TransferAcceptsNegativeAmount(fromId: Guid, toId: Guid)
    ensures TransferRun(fromId, toId, Some(AccountState(fromId, None, Totals(1000, 0, 0))),
                        Some(AccountState(toId, None, Totals(20, 0, 100))), false, -50)
         == Run(Ok, [Lookup(fromId), Lookup(toId),
                     Updated(fromId, Totals(1050, 50, 0)), Updated(toId, Totals(-30, 0, 50))])
  {
  }

  class TransferMoney {
    const accountRepository: AccountRepository
    const notificationService: NotificationService

    constructor (accountRepository: AccountRepository, notificationService: NotificationService)
      ensures this.accountRepository == accountRepository
      ensures this.notificationService == notificationService
    {
      this.accountRepository := accountRepository;
      this.notificationService := notificationService;
    }

    /** Transfers `amount` between the accounts the two identifiers resolve
        to. The outcome and the calls made are those of `TransferRun` on the
        accounts' states at entry; on success the two accounts end as
        `Settle` says, and nothing else changes; on failure nothing changes. */
    method Execute(fromAccountId: Guid, toAccountId: Guid, amount: int) returns (outcome: Outcome)
      requires notificationService.trace == accountRepository.trace
      modifies accountRepository.trace, Resolved(accountRepository.accounts, {fromAccountId, toAccountId})
      ensures var accounts := accountRepository.accounts;
        var r := TransferRun(fromAccountId, toAccountId,
                             old(StateOf(accounts, fromAccountId)), old(StateOf(accounts, toAccountId)),
                             Aliased(accounts, fromAccountId, toAccountId), amount);
        outcome == r.outcome &&
        accountRepository.trace.events == old(accountRepository.trace.events) + r.events
      ensures fromAccountId in accountRepository.accounts ==>
        var a := accountRepository.accounts[fromAccountId];
        a.Id == old(a.Id) && a.User == old(a.User) && (outcome != Ok ==> a.Snapshot() == old(a.Snapshot()))
      ensures toAccountId in accountRepository.accounts ==>
        var a := accountRepository.accounts[toAccountId];
        a.Id == old(a.Id) && a.User == old(a.User) && (outcome != Ok ==> a.Snapshot() == old(a.Snapshot()))
      ensures var accounts := accountRepository.accounts;
        forall a | a in accounts.Values &&
                   (fromAccountId in accounts ==> a != accounts[fromAccountId]) &&
                   (toAccountId in accounts ==> a != accounts[toAccountId]) ::
          a.Id == old(a.Id) && a.User == old(a.User) && a.Snapshot() == old(a.Snapshot())
      ensures outcome == Ok ==>
        var accounts := accountRepository.accounts;
        && fromAccountId in accounts && toAccountId in accounts
        && var s := Settle(old(accounts[fromAccountId].Snapshot()), old(accounts[toAccountId].Snapshot()),
                           Aliased(accounts, fromAccountId, toAccountId), amount);
        && accounts[fromAccountId].Snapshot() == s.from
        && accounts[toAccountId].Snapshot() == s.to
    {
      var foundFrom := accountRepository.GetAccountById(fromAccountId);
      if foundFrom.None? {
        outcome := AccountNotFound;
        return;
      }
      var foundTo := accountRepository.GetAccountById(toAccountId);
      if foundTo.None? {
        outcome := AccountNotFound;
        return;
      }
      var fromAccount, toAccount := foundFrom.value, foundTo.value;

      outcome := CheckSource(fromAccount, amount);
      if outcome != Ok {
        return;
      }
      outcome := CheckDestination(toAccount, amount);
      if outcome != Ok {
        return;
      }
      Commit(fromAccount, toAccount, amount);
    }

    /** The source's balance check and, for a low balance, the notice to its owner. */
    method CheckSource(fromAccount: Account, amount: int) returns (outcome: Outcome)
      modifies notificationService.trace
      ensures var p := SourcePhase(fromAccount.State(), amount);
        outcome == p.outcome && notificationService.trace.events == old(notificationService.trace.events) + p.events
    {
      if !fromAccount.HasSufficientBalance(amount) {
        return InsufficientFunds;
      }
      if fromAccount.HasLowFunds() {
        if fromAccount.User.None? {
          return MissingUser;
        }
        notificationService.NotifyFundsLow(fromAccount.User.value.Email);
      }
      return Ok;
    }

    /** The destination's pay-in capacity check and, near the limit, the
        warning to its owner. */
    method CheckDestination(toAccount: Account, amount: int) returns (outcome: Outcome)
      modifies notificationService.trace
      ensures var q := DestinationPhase(toAccount.State(), amount);
        outcome == q.outcome && notificationService.trace.events == old(notificationService.trace.events) + q.events
    {
      if !toAccount.HasSufficientPayInCapacity(amount) {
        return PayInLimitReached;
      }
      if toAccount.IsNearPayInLimit(amount) {
        if toAccount.User.None? {
          return MissingUser;
        }
        notificationService.NotifyApproachingPayInLimit(toAccount.User.value.Email);
      }
      return Ok;
    }

    /** Withdraws from the source, deposits into the destination, then
        persists the source and the destination, in that order. */
    method Commit(fromAccount: Account, toAccount: Account, amount: int)
      modifies accountRepository.trace, fromAccount, toAccount
      ensures fromAccount.Id == old(fromAccount.Id) && fromAccount.User == old(fromAccount.User)
      ensures toAccount.Id == old(toAccount.Id) && toAccount.User == old(toAccount.User)
      ensures var s := Settle(old(fromAccount.Snapshot()), old(toAccount.Snapshot()), fromAccount == toAccount, amount);
        && fromAccount.Snapshot() == s.from && toAccount.Snapshot() == s.to
        && accountRepository.trace.events ==
           old(accountRepository.trace.events) + [Updated(old(fromAccount.Id), s.from)] + [Updated(old(toAccount.Id), s.to)]
    {
      fromAccount.WithdrawFunds(amount);
      toAccount.DepositFunds(amount);
      accountRepository.Update(fromAccount);
      accountRepository.Update(toAccount);
    }
  }
}
