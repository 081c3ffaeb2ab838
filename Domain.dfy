/** The Account entity: three running totals, four threshold predicates and
    two unvalidated mutators. Amounts are integers in minor currency units. */
module Domain {

  datatype Option<T> = None | Some(value: T)

  /** The pay-in limit, the warning margin below it, and the low-funds level. */
  const PayInLimit: int := 4000
  const PayInLimitThreshold: int := 500
  const LowFundsThreshold: int := 500

  /** Account identifiers are opaque; only equality matters. */
  type Guid = nat

  /** An account owner, known to the core only by the address notices go to. */
  datatype User = User(Email: string)

  /** The three running totals of an account at one moment, with the
      account's predicates and mutators stated on values. */
  datatype Totals = Totals(Balance: int, Withdrawn: int, PaidIn: int)
  {
    predicate HasSufficientBalance(withdrawalAmount: int) {
      Balance > withdrawalAmount
    }

    predicate HasLowFunds() {
      Balance < LowFundsThreshold
    }

    predicate HasSufficientPayInCapacity(depositAmount: int) {
      PaidIn + depositAmount < PayInLimit
    }

    predicate IsNearPayInLimit(depositAmount: int) {
      PaidIn + depositAmount > PayInLimit - PayInLimitThreshold
    }

    /** The totals after `WithdrawFunds(amount)`: no validation, the balance may go negative. */
    function AfterWithdrawal(amount: int): (r: Totals)
      ensures r.PaidIn == PaidIn && r.Balance - r.Withdrawn == Balance - Withdrawn
    {
      Totals(Balance - amount, Withdrawn - amount, PaidIn)
    }

    /** The totals after `DepositFunds(amount)`: no validation either. */
    function AfterDeposit(amount: int): (r: Totals)
      ensures r.Withdrawn == Withdrawn && r.Balance - r.PaidIn == Balance - PaidIn
    {
      Totals(Balance + amount, Withdrawn, PaidIn + amount)
    }
  }

  /** Everything the use cases read from an account: identity, owner and totals. */
  datatype AccountState = AccountState(Id: Guid, User: Option<User>, Totals: Totals)

  class Account {
    var Id: Guid
    var User: Option<User>
    var Balance: int
    var Withdrawn: int
    var PaidIn: int

    constructor (id: Guid, user: Option<User>, balance: int, withdrawn: int, paidIn: int)
      ensures Id == id && User == user
      ensures Balance == balance && Withdrawn == withdrawn && PaidIn == paidIn
    {
      Id, User := id, user;
      Balance, Withdrawn, PaidIn := balance, withdrawn, paidIn;
    }

    /** The running totals as a value. */
    function Snapshot(): (t: Totals)
      reads this
    {
      Totals(Balance, Withdrawn, PaidIn)
    }

    /** The whole account as a value. */
    function State(): (a: AccountState)
      reads this
    {
      AccountState(Id, User, Snapshot())
    }

    predicate HasSufficientBalance(withdrawalAmount: int)
      reads this
      ensures HasSufficientBalance(withdrawalAmount) <==> Balance > withdrawalAmount
    {
      Snapshot().HasSufficientBalance(withdrawalAmount)
    }

    predicate HasLowFunds()
      reads this
      ensures HasLowFunds() <==> Balance < LowFundsThreshold
    {
      Snapshot().HasLowFunds()
    }

    predicate HasSufficientPayInCapacity(depositAmount: int)
      reads this
      ensures HasSufficientPayInCapacity(depositAmount) <==> PaidIn + depositAmount < PayInLimit
    {
      Snapshot().HasSufficientPayInCapacity(depositAmount)
    }

    predicate IsNearPayInLimit(depositAmount: int)
      reads this
      ensures IsNearPayInLimit(depositAmount) <==> PaidIn + depositAmount > PayInLimit - PayInLimitThreshold
    {
      Snapshot().IsNearPayInLimit(depositAmount)
    }

    method WithdrawFunds(amount: int)
      modifies this
      ensures Balance == old(Balance) - amount
      ensures Withdrawn == old(Withdrawn) - amount
      ensures PaidIn == old(PaidIn) && Id == old(Id) && User == old(User)
      ensures Snapshot() == old(Snapshot()).AfterWithdrawal(amount)
    {
      Balance := Balance - amount;
      Withdrawn := Withdrawn - amount;
    }

    method DepositFunds(amount: int)
      modifies this
      ensures Balance == old(Balance) + amount
      ensures PaidIn == old(PaidIn) + amount
      ensures Withdrawn == old(Withdrawn) && Id == old(Id) && User == old(User)
      ensures Snapshot() == old(Snapshot()).AfterDeposit(amount)
    {
      Balance := Balance + amount;
      PaidIn := PaidIn + amount;
    }
  }

  /** Each predicate's strict boundary: equality falls on the "false" side. */
  lemma PredicateBoundaries(t: Totals, amount: int)
    ensures t.HasSufficientBalance(amount) <==> t.Balance - amount > 0
    ensures t.Balance == amount ==> !t.HasSufficientBalance(amount)
    ensures t.Balance == LowFundsThreshold ==> !t.HasLowFunds()
    ensures t.PaidIn + amount == PayInLimit ==> !t.HasSufficientPayInCapacity(amount)
    ensures t.PaidIn + amount == 3500 ==> !t.IsNearPayInLimit(amount)
    ensures t.IsNearPayInLimit(amount) <==> t.PaidIn + amount > 3500
  {
  }

  /** What each predicate promises about the totals after the matching mutator:
      a sufficient balance leaves a strictly positive balance, sufficient
      pay-in capacity leaves the paid-in total strictly under the limit, and
      "near the limit" means the paid-in total ends within the warning margin. */
  lemma PredicatesForeseeMutation(t: Totals, amount: int)
    ensures t.HasSufficientBalance(amount) <==> t.AfterWithdrawal(amount).Balance > 0
    ensures t.HasSufficientPayInCapacity(amount) <==> t.AfterDeposit(amount).PaidIn < PayInLimit
    ensures t.IsNearPayInLimit(amount) <==> t.AfterDeposit(amount).PaidIn > PayInLimit - PayInLimitThreshold
  {
  }

  /** A withdrawal followed by a deposit of the same amount restores the
      balance only; the two counters stay shifted. */
  lemma WithdrawThenDeposit(t: Totals, amount: int)
    ensures t.AfterWithdrawal(amount).AfterDeposit(amount).Balance == t.Balance
    ensures t.AfterWithdrawal(amount).AfterDeposit(amount).Withdrawn == t.Withdrawn - amount
    ensures t.AfterWithdrawal(amount).AfterDeposit(amount).PaidIn == t.PaidIn + amount
  {
  }

  /** One call of either mutator. */
  datatype Movement = Withdraw(amount: int) | Deposit(amount: int)

  function Apply(t: Totals, m: Movement): (r: Totals) {
    match m
    case Withdraw(a) => t.AfterWithdrawal(a)
    case Deposit(a) => t.AfterDeposit(a)
  }

  /** The totals after the movements, applied first to last. */
  function Replay(t: Totals, ms: seq<Movement>): (r: Totals)
    decreases |ms|
  {
    if ms == [] then t else Replay(Apply(t, ms[0]), ms[1..])
  }

  function TotalWithdrawn(ms: seq<Movement>): (n: int)
    decreases |ms|
  {
    if ms == [] then 0 else (if ms[0].Withdraw? then ms[0].amount else 0) + TotalWithdrawn(ms[1..])
  }

  function TotalDeposited(ms: seq<Movement>): (n: int)
    decreases |ms|
  {
    if ms == [] then 0 else (if ms[0].Deposit? then ms[0].amount else 0) + TotalDeposited(ms[1..])
  }

  /** The totals are always consistent with the movements applied: each
      counter moves by the sum of its own movements, the balance by their
      difference, so Balance - Withdrawn - PaidIn never changes. */
  lemma {:induction false} ReplayTotals(t: Totals, ms: seq<Movement>)
    ensures Replay(t, ms).Balance == t.Balance + TotalDeposited(ms) - TotalWithdrawn(ms)
    ensures Replay(t, ms).Withdrawn == t.Withdrawn - TotalWithdrawn(ms)
    ensures Replay(t, ms).PaidIn == t.PaidIn + TotalDeposited(ms)
    ensures Replay(t, ms).Balance - Replay(t, ms).Withdrawn - Replay(t, ms).PaidIn
         == t.Balance - t.Withdrawn - t.PaidIn
    decreases |ms|
  {
    if ms != [] {
      ReplayTotals(Apply(t, ms[0]), ms[1..]);
    }
  }

  /** The paid-in total never decreases as long as no deposit is negative. */
  lemma {:induction false} PaidInMonotone(t: Totals, ms: seq<Movement>)
    requires forall i :: 0 <= i < |ms| && ms[i].Deposit? ==> ms[i].amount >= 0
    ensures Replay(t, ms).PaidIn >= t.PaidIn
    decreases |ms|
  {
    if ms != [] {
      PaidInMonotone(Apply(t, ms[0]), ms[1..]);
    }
  }

  /** The mutators do not check the sign of the amount: a negative deposit
      lowers the paid-in total, so its monotonicity rests on callers. */
  lemma NegativeDepositLowersPaidIn(t: Totals, amount: int)
    requires amount < 0
    ensures Replay(t, [Deposit(amount)]).PaidIn < t.PaidIn
  {
  }
}
