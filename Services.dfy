/** The two collaborators the use cases consume: the account repository and
    the notification service. Neither is implemented by the core; both are
    modelled by the calls they receive, appended in order to one shared trace. */
module Services {
  import opened Domain

  /** One collaborator call. `Updated` carries the totals the repository was
      asked to persist. */
  datatype Event =
    | Lookup(id: Guid)
    | FundsLow(email: string)
    | ApproachingPayInLimit(email: string)
    | Updated(id: Guid, totals: Totals)
  {
    predicate IsNotice() {
      FundsLow? || ApproachingPayInLimit?
    }
  }

  /** How a use case ends: `Ok`, or the exception it raises. `AccountNotFound`
      is the repository's lookup failure, passed through unchanged;
      `MissingUser` is the null dereference of an absent owner's address. */
  datatype Outcome = Ok | InsufficientFunds | PayInLimitReached | AccountNotFound | MissingUser

  /** What one use-case call did: how it ended and the collaborator calls it made. */
  datatype Run = Run(outcome: Outcome, events: seq<Event>)

  datatype Kind = LookupKind | FundsLowKind | ApproachingKind | UpdatedKind

  function KindOf(e: Event): (k: Kind) {
    match e
    case Lookup(_) => LookupKind
    case FundsLow(_) => FundsLowKind
    case ApproachingPayInLimit(_) => ApproachingKind
    case Updated(_, _) => UpdatedKind
  }

  /** The number of calls of one kind in a trace. */
  function Count(events: seq<Event>, k: Kind): (n: nat)
    ensures n <= |events|
    ensures n == 0 <==> forall i :: 0 <= i < |events| ==> KindOf(events[i]) != k
    decreases |events|
  {
    if events == [] then 0
    else (if KindOf(events[0]) == k then 1 else 0) + Count(events[1..], k)
  }

  lemma {:induction false} CountConcat(s: seq<Event>, t: seq<Event>, k: Kind)
    ensures Count(s + t, k) == Count(s, k) + Count(t, k)
    decreases |s|
  {
    if s == [] {
      assert s + t == t;
    } else {
      assert (s + t)[1..] == s[1..] + t;
      CountConcat(s[1..], t, k);
    }
  }

  lemma CountSingle(e: Event, k: Kind)
    ensures Count([e], k) == if KindOf(e) == k then 1 else 0
  {
    assert [e][1..] == [];
  }

  /** Every call in the trace is of kind `k0`. */
  predicate AllOfKind(events: seq<Event>, k0: Kind) {
    forall i :: 0 <= i < |events| ==> KindOf(events[i]) == k0
  }

  lemma {:induction false} CountAllOfKind(events: seq<Event>, k0: Kind, k: Kind)
    requires AllOfKind(events, k0)
    ensures Count(events, k) == if k == k0 then |events| else 0
    decreases |events|
  {
    if events != [] {
      assert AllOfKind(events[1..], k0) by {
        forall i | 0 <= i < |events[1..]| ensures KindOf(events[1..][i]) == k0 {
          assert events[1..][i] == events[i + 1];
        }
      }
      CountAllOfKind(events[1..], k0, k);
    }
  }

  /** The counts of a trace made of lookups, then low-funds notices, then
      pay-in warnings, then updates. */
  lemma CountOfPieces(lookups: seq<Event>, low: seq<Event>, near: seq<Event>, ups: seq<Event>, k: Kind)
    requires AllOfKind(lookups, LookupKind) && AllOfKind(low, FundsLowKind)
    requires AllOfKind(near, ApproachingKind) && AllOfKind(ups, UpdatedKind)
    ensures Count(lookups + low + near + ups, k) ==
      match k
      case LookupKind => |lookups|
      case FundsLowKind => |low|
      case ApproachingKind => |near|
      case UpdatedKind => |ups|
  {
    CountConcat(lookups + low + near, ups, k);
    CountConcat(lookups + low, near, k);
    CountConcat(lookups, low, k);
    CountAllOfKind(lookups, LookupKind, k);
    CountAllOfKind(low, FundsLowKind, k);
    CountAllOfKind(near, ApproachingKind, k);
    CountAllOfKind(ups, UpdatedKind, k);
  }

  /** No notice is sent after an account has been persisted. */
  predicate NoticesPrecedeUpdates(events: seq<Event>) {
    forall i, j :: 0 <= i < j < |events| && events[i].Updated? ==> !events[j].IsNotice()
  }

  /** The shared, append-only record of collaborator calls. */
  class Trace {
    var events: seq<Event>

    constructor ()
      ensures events == []
    {
      events := [];
    }

    method Record(e: Event)
      modifies this
      ensures events == old(events) + [e]
    {
      events := events + [e];
    }
  }

  /** The account repository: lookup by identifier, and persisting an account's
      current state. How it stores accounts is not modelled; the accounts it
      can hand out are a fixed map. */
  class AccountRepository {
    const accounts: map<Guid, Account>
    const trace: Trace

    constructor (accounts: map<Guid, Account>, trace: Trace)
      ensures this.accounts == accounts && this.trace == trace
    {
      this.accounts := accounts;
      this.trace := trace;
    }

    method GetAccountById(id: Guid) returns (account: Option<Account>)
      modifies trace
      ensures account == if id in accounts then Some(accounts[id]) else None
      ensures trace.events == old(trace.events) + [Lookup(id)]
    {
      trace.Record(Lookup(id));
      account := if id in accounts then Some(accounts[id]) else None;
    }

    method Update(account: Account)
      modifies trace
      ensures trace.events == old(trace.events) + [Updated(account.Id, account.Snapshot())]
    {
      trace.Record(Updated(account.Id, account.Snapshot()));
    }
  }

  /** The notification service: both notices are recorded, never delivered. */
  class NotificationService {
    const trace: Trace

    constructor (trace: Trace)
      ensures this.trace == trace
    {
      this.trace := trace;
    }

    method NotifyFundsLow(email: string)
      modifies trace
      ensures trace.events == old(trace.events) + [FundsLow(email)]
    {
      trace.Record(FundsLow(email));
    }

    method NotifyApproachingPayInLimit(email: string)
      modifies trace
      ensures trace.events == old(trace.events) + [ApproachingPayInLimit(email)]
    {
      trace.Record(ApproachingPayInLimit(email));
    }
  }

  /** The account objects the given identifiers resolve to. */
  function Resolved(accounts: map<Guid, Account>, ids: set<Guid>): (r: set<Account>) {
    set id | id in ids && id in accounts :: accounts[id]
  }

  /** The current state of the account an identifier resolves to, if any. */
  function StateOf(accounts: map<Guid, Account>, id: Guid): (r: Option<AccountState>)
    reads accounts.Values
  {
    if id in accounts then Some(accounts[id].State()) else None
  }
}
