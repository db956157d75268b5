/**
 The data of x/gov and x/coredaos: proposals, queue keys, parameters, and the store that
 the keepers read and write.
 */
module GovTypes {
  import opened Options

  /** Nanoseconds: time.Time and time.Duration. */
  type Time = int
  type Duration = int
  type Address = string
  type Denom = string

  /** sdk.Coins: the multiplicity of a denom is its amount; Add is +, IsAllGTE(b) is b <= a. */
  type Coins = multiset<Denom>

  datatype Status = Unspecified | DepositPeriod | VotingPeriod | Passed | Rejected | Failed | Vetoed

  datatype TallyResult = TallyResult(yes: nat, abstain: nat, no: nat)

  datatype Message = Message(typeUrl: string, body: string)

  /** A proposal without its id, which is its key in the store; a None message does not unpack. */
  datatype Proposal = Proposal(
    status: Status,
    totalDeposit: Coins,
    depositEnd: Time,
    votingStart: Option<Time>,
    votingEnd: Option<Time>,
    timesExtended: nat,
    annotation: string,
    endorsed: bool,
    messages: seq<Option<Message>>,
    tally: TallyResult)

  /** The key of a queue entry: time first, then proposal id. */
  datatype QKey = QKey(time: Time, id: nat) {
    predicate Before(other: QKey) {
      time < other.time || (time == other.time && id < other.id)
    }
  }

  /** The value of a quorum-check queue entry. */
  datatype QuorumEntry = QuorumEntry(timeout: Time, count: nat, done: nat)

  /** The key of a deposit or a vote. */
  datatype DKey = DKey(id: nat, who: Address)

  type Vote = string

  datatype GovParams = GovParams(
    depositPeriod: Duration,
    votingPeriod: Duration,
    quorumTimeout: Duration,
    extension: Duration,
    checkCount: nat,
    burnPrevote: bool,
    depositFloor: Coins,
    depositRatio: int)

  /** An empty address means that the DAO is not set. */
  datatype DaoParams = DaoParams(steering: Address, oversight: Address, limit: nat, duration: Duration)

  datatype MinDeposit = MinDeposit(value: Coins, at: Time)

  /** Everything outside the gov store: other modules, the gov module account, all other accounts, the supply. */
  datatype World = World(kv: map<string, string>, gov: Coins, accounts: map<Address, Coins>, supply: Coins)

  /** The gov store and the world around it; halted means a panic outside message execution. */
  datatype Store = Store(
    proposals: map<nat, Proposal>,
    inactive: set<QKey>,
    active: set<QKey>,
    quorum: map<QKey, QuorumEntry>,
    nInactive: nat,
    nActive: nat,
    nextId: nat,
    deposits: map<DKey, Coins>,
    votes: map<DKey, Vote>,
    minDeposit: MinDeposit,
    world: World,
    params: GovParams,
    dao: DaoParams,
    halted: bool)

  /** The gov store of a new chain. */
  function EmptyStore(world: World, params: GovParams, dao: DaoParams): Store {
    Store(map[], {}, {}, map[], 0, 0, 1, map[], map[], MinDeposit(multiset{}, 0), world, params, dao, false)
  }

  datatype TxError =
    | UnknownProposal | InactiveProposal | MinDepositTooSmall | InsufficientFunds
    | FunctionDisabled | InvalidSigner | ExtensionsExhausted | AnnotationPresent | AlreadyEndorsed

  /** What a transaction does: a new store, or an error and no change. */
  datatype Reply = Done(store: Store) | Refused(error: TxError)

  /** What keeper.Tally reports; err carries the voters whose votes were deleted before the error. */
  datatype TallyOutcome = TallyOutcome(
    passes: bool,
    burn: bool,
    result: TallyResult,
    participation: int,
    err: Option<set<Address>>)

  /** The code outside x/gov that the handlers call, and the parts of x/gov not modelled. */
  datatype Env = Env(
    throttle: (GovParams, MinDeposit, nat, bool, Time) -> MinDeposit,
    bonded: World -> Option<nat>,
    power: (World, Address) -> Option<nat>,
    quorum: (World, Proposal) -> int,
    tally: (World, Proposal, map<Address, Vote>) -> TallyOutcome,
    afterTally: (World, Proposal, TallyOutcome) -> World,
    handle: (World, Message) -> Option<World>)
}

/** Sums of coins over finite maps, independent of the order of the keys. */
module CoinSums {
  import opened GovTypes

  ghost function Sum<K(!new)>(m: map<K, Coins>): Coins {
    if m == map[] then multiset{} else
      var k :| k in m;
      m[k] + Sum(m - {k})
  }

  lemma {:induction false} SumRemove<K(!new)>(m: map<K, Coins>, k: K)
    requires k in m
    ensures Sum(m) == m[k] + Sum(m - {k})
    decreases |m|
  {
    var x :| x in m && Sum(m) == m[x] + Sum(m - {x});
    if x != k {
      SumRemove(m - {x}, k);
      SumRemove(m - {k}, x);
      assert m - {x} - {k} == m - {k} - {x};
    }
  }

  lemma SumUpdate<K(!new)>(m: map<K, Coins>, k: K, c: Coins)
    ensures Sum(m[k := c]) == c + Sum(m - {k})
  {
    SumRemove(m[k := c], k);
    assert m[k := c] - {k} == m - {k};
  }

  function Get<K(!new)>(m: map<K, Coins>, k: K): Coins {
    if k in m then m[k] else multiset{}
  }

  /** m with c added at k. */
  function AddAt<K(!new)>(m: map<K, Coins>, k: K, c: Coins): map<K, Coins> {
    m[k := Get(m, k) + c]
  }

  lemma SumAddAt<K(!new)>(m: map<K, Coins>, k: K, c: Coins)
    ensures Sum(AddAt(m, k, c)) == Sum(m) + c
  {
    SumUpdate(m, k, Get(m, k) + c);
    if k in m { SumRemove(m, k); } else { assert m - {k} == m; }
  }

  function OfProposal<V>(m: map<DKey, V>, id: nat): map<DKey, V> {
    map k | k in m && k.id == id :: m[k]
  }

  function Without<V>(m: map<DKey, V>, id: nat): map<DKey, V> {
    map k | k in m && k.id != id :: m[k]
  }

  lemma SumEmpty<K(!new)>(m: map<K, Coins>)
    requires m == map[]
    ensures Sum(m) == multiset{}
  {
  }

  lemma {:induction false} SumSplit(m: map<DKey, Coins>, id: nat)
    ensures Sum(m) == Sum(OfProposal(m, id)) + Sum(Without(m, id))
    decreases |m|
  {
    hide Sum;
    var a, b := OfProposal(m, id), Without(m, id);
    if m == map[] {
      SumEmpty(m);
      SumEmpty(a);
      SumEmpty(b);
    } else {
      var k :| k in m;
      SumRemove(m, k);
      SumSplit(m - {k}, id);
      if k.id == id {
        SumRemove(a, k);
        assert a - {k} == OfProposal(m - {k}, id) && b == Without(m - {k}, id);
      } else {
        SumRemove(b, k);
        assert b - {k} == Without(m - {k}, id) && a == OfProposal(m - {k}, id);
      }
    }
  }

  /** Sums of a proposal's deposits do not see other proposals' deposits. */
  lemma OfProposalFrame<V>(m: map<DKey, V>, id: nat, other: nat)
    requires id != other
    ensures OfProposal(Without(m, other), id) == OfProposal(m, id)
  {
  }

  /** Every depositor in ds, all of one proposal, is paid its deposit. */
  function PayBack(accounts: map<Address, Coins>, ds: map<DKey, Coins>, id: nat): map<Address, Coins> {
    map a | a in accounts.Keys + (set k | k in ds :: k.who) :: Get(accounts, a) + Get(ds, DKey(id, a))
  }

  lemma PayBackKeys(accounts: map<Address, Coins>, ds: map<DKey, Coins>, id: nat, k: DKey)
    requires k in ds
    ensures PayBack(accounts, ds, id).Keys == PayBack(accounts, ds - {k}, id).Keys + {k.who}
  {
    hide Get;
    var lhs, rhs := PayBack(accounts, ds, id).Keys, PayBack(accounts, ds - {k}, id).Keys + {k.who};
    forall a | a in lhs ensures a in rhs {
      if a !in accounts && a != k.who {
        var x :| x in ds && x.who == a;
        assert x in ds - {k};
      }
    }
    forall a | a in rhs ensures a in lhs {
      if a !in accounts && a != k.who {
        var x :| x in ds - {k} && x.who == a;
        assert x in ds;
      } else if a == k.who {
        assert k in ds;
      }
    }
  }

  lemma PayBackAt(accounts: map<Address, Coins>, ds: map<DKey, Coins>, id: nat, a: Address)
    ensures Get(PayBack(accounts, ds, id), a) == Get(accounts, a) + Get(ds, DKey(id, a))
  {
    if DKey(id, a) in ds {
      assert DKey(id, a).who == a;
    }
  }

  /** Two maps with the same keys and the same amounts are equal. */
  lemma SameMap<K(!new)>(m: map<K, Coins>, n: map<K, Coins>)
    requires m.Keys == n.Keys && forall a :: Get(m, a) == Get(n, a)
    ensures m == n
  {
    forall a | a in m ensures m[a] == n[a] {
      assert Get(m, a) == Get(n, a);
    }
  }

  lemma PayBackOneAt(accounts: map<Address, Coins>, ds: map<DKey, Coins>, k: DKey, a: Address)
    requires k in ds
    ensures Get(PayBack(accounts, ds, k.id), a) == Get(AddAt(PayBack(accounts, ds - {k}, k.id), k.who, ds[k]), a)
  {
    PayBackAt(accounts, ds, k.id, a);
    PayBackAt(accounts, ds - {k}, k.id, a);
    hide PayBack;
    if a == k.who {
      assert DKey(k.id, a) == k;
      assert Get(ds - {k}, k) == multiset{};
    } else {
      assert DKey(k.id, a) != k;
      assert Get(ds - {k}, DKey(k.id, a)) == Get(ds, DKey(k.id, a));
    }
  }

  lemma PayBackOne(accounts: map<Address, Coins>, ds: map<DKey, Coins>, k: DKey)
    requires k in ds
    ensures PayBack(accounts, ds, k.id) == AddAt(PayBack(accounts, ds - {k}, k.id), k.who, ds[k])
  {
    PayBackKeys(accounts, ds, k.id, k);
    hide PayBack, Get;
    forall a ensures Get(PayBack(accounts, ds, k.id), a) ==
                     Get(AddAt(PayBack(accounts, ds - {k}, k.id), k.who, ds[k]), a) {
      PayBackOneAt(accounts, ds, k, a);
    }
    SameMap(PayBack(accounts, ds, k.id), AddAt(PayBack(accounts, ds - {k}, k.id), k.who, ds[k]));
  }

  /** Paying back moves exactly the sum of the deposits into the accounts. */
  lemma {:induction false} PayBackSum(accounts: map<Address, Coins>, ds: map<DKey, Coins>, id: nat)
    requires forall x | x in ds :: x.id == id
    ensures Sum(PayBack(accounts, ds, id)) == Sum(accounts) + Sum(ds)
    decreases |ds|
  {
    hide Sum, AddAt;
    if ds == map[] {
      PayBackNothing(accounts, id);
      SumEmpty(ds);
    } else {
      hide PayBack;
      var k :| k in ds;
      PayBackOne(accounts, ds, k);
      PayBackSum(accounts, ds - {k}, id);
      SumAddAt(PayBack(accounts, ds - {k}, id), k.who, ds[k]);
      SumRemove(ds, k);
      Regroup(Sum(accounts), Sum(ds - {k}), ds[k]);
    }
  }

  lemma Regroup(a: Coins, b: Coins, c: Coins)
    ensures a + b + c == a + (c + b)
  {
  }

  lemma PayBackNothing(accounts: map<Address, Coins>, id: nat)
    ensures PayBack(accounts, map[], id) == accounts
  {
    var all := PayBack(accounts, map[], id);
    forall a ensures Get(all, a) == Get(accounts, a) {
      PayBackAt(accounts, map[], id, a);
    }
    SameMap(all, accounts);
  }
}
