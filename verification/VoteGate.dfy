/**
 The vote-stake gate (ante/gov_vote_ante.go): a transaction passes if every MsgVote in it, sent
 directly or wrapped once by authz, comes from an account that has staked enough.
 */
module VoteGate {
  import opened Options
  import opened GovTypes

  const MAX_DELEGATIONS: nat := 100

  /** A transaction's message; an address that does not parse or a message that does not unpack is None. */
  datatype Msg =
    | VoteMsg(voter: Option<Address>)
    | WeightedVoteMsg(voter: Option<Address>)
    | ExecMsg(inner: seq<Option<Msg>>)
    | OtherMsg

  datatype GateError = BadAddress | StakingFailure | InsufficientStake | CannotUnpack

  /**
   Staking as the gate sees it: the tokens of each of an account's delegations in the order of
   iteration, None for one whose validator is gone; and the minimum stake, a raw decimal.
   */
  datatype Staking = Staking(delegations: Address -> Option<seq<Option<nat>>>, minimum: int)

  // ---------------------------------------------------------------- stake

  /** The tokens of the delegations whose validator exists, in order. */
  function Live(ds: seq<Option<nat>>): seq<nat>
    decreases |ds|
  {
    if ds == [] then [] else (if ds[0].Some? then [ds[0].value] else []) + Live(ds[1..])
  }

  function SumOf(xs: seq<nat>): nat
    decreases |xs|
  {
    if xs == [] then 0 else xs[0] + SumOf(xs[1..])
  }

  function FirstOf(xs: seq<nat>, n: nat): seq<nat> {
    if |xs| <= n then xs else xs[..n]
  }

  /** The stake that counts: the first hundred delegations to existing validators. */
  function Stake(ds: seq<Option<nat>>): nat {
    SumOf(FirstOf(Live(ds), MAX_DELEGATIONS))
  }

  /** Enough for a positive minimum; a negative one is met by any delegation, but not by none. */
  predicate HasStake(ds: seq<Option<nat>>, minimum: int) {
    minimum <= Stake(ds) && (minimum <= 0 ==> Live(ds) != [])
  }

  lemma {:induction false} SumSplit(xs: seq<nat>, ys: seq<nat>)
    ensures SumOf(xs + ys) == SumOf(xs) + SumOf(ys)
    decreases |xs|
  {
    if xs == [] {
      assert xs + ys == ys;
    } else {
      SumSplit(xs[1..], ys);
      assert (xs + ys)[1..] == xs[1..] + ys;
    }
  }

  lemma {:induction false} LiveSplit(a: seq<Option<nat>>, b: seq<Option<nat>>)
    ensures Live(a + b) == Live(a) + Live(b)
    decreases |a|
  {
    if a == [] {
      assert a + b == b;
    } else {
      LiveSplit(a[1..], b);
      assert (a + b)[1..] == a[1..] + b && (a + b)[0] == a[0];
      var first := if a[0].Some? then [a[0].value] else [];
      assert Live(a) == first + Live(a[1..]) && Live(a + b) == first + (Live(a[1..]) + Live(b));
    }
  }

  lemma LiveOne(d: Option<nat>)
    ensures Live([d]) == if d.Some? then [d.value] else []
  {
    assert [d][1..] == [];
  }

  lemma LiveNext(ds: seq<Option<nat>>, i: nat)
    requires i < |ds|
    ensures Live(ds[..i + 1]) == if ds[i].Some? then Live(ds[..i]) + [ds[i].value] else Live(ds[..i])
  {
    assert ds[..i + 1] == ds[..i] + [ds[i]] && Live(ds[..i]) + [] == Live(ds[..i]);
    LiveSplit(ds[..i], [ds[i]]);
    LiveOne(ds[i]);
  }

  lemma LivePrefix(ds: seq<Option<nat>>, i: nat)
    requires i <= |ds|
    ensures Live(ds) == Live(ds[..i]) + Live(ds[i..])
  {
    assert ds == ds[..i] + ds[i..];
    LiveSplit(ds[..i], ds[i..]);
  }

  /** A prefix of at most a hundred live delegations is part of the stake. */
  lemma PrefixCounts(ds: seq<Option<nat>>, i: nat)
    requires i <= |ds| && |Live(ds[..i])| <= MAX_DELEGATIONS
    ensures SumOf(Live(ds[..i])) <= Stake(ds)
    ensures |Live(ds[..i])| == MAX_DELEGATIONS || i == |ds| ==> SumOf(Live(ds[..i])) == Stake(ds)
    ensures Live(ds[..i]) != [] ==> Live(ds) != []
    ensures i == |ds| ==> Live(ds[..i]) == Live(ds)
  {
    LivePrefix(ds, i);
    var a, b := Live(ds[..i]), Live(ds[i..]);
    var first := FirstOf(a + b, MAX_DELEGATIONS);
    assert first == a + first[|a|..];
    SumSplit(a, first[|a|..]);
    if i == |ds| {
      assert ds[..i] == ds;
    } else if |a| == MAX_DELEGATIONS {
      assert first == a;
    }
  }

  /** The iteration over delegations: it stops as soon as the stake is enough, or after a hundred live delegations. */
  method EnoughStake(ds: seq<Option<nat>>, minimum: int) returns (enough: bool)
    ensures enough == HasStake(ds, minimum)
  {
    enough := false;
    var staked: nat, count: nat := 0, 0;
    var i := 0;
    var stop := false;
    while i < |ds| && !stop
      invariant i <= |ds|
      invariant staked == SumOf(Live(ds[..i])) && |Live(ds[..i])| <= MAX_DELEGATIONS
      invariant !enough ==> count == |Live(ds[..i])|
      invariant enough ==> stop && minimum <= staked && Live(ds[..i]) != []
      invariant !enough && Live(ds[..i]) != [] ==> staked < minimum
      invariant !enough ==> (stop <==> count >= MAX_DELEGATIONS)
      decreases |ds| - i, !stop
    {
      LiveNext(ds, i);
      if ds[i].Some? {
        SumSplit(Live(ds[..i]), [ds[i].value]);
        SumOne(ds[i].value);
        staked := staked + ds[i].value;
        if staked >= minimum {
          enough := true;
          stop := true;
        } else {
          count := count + 1;
          stop := count >= MAX_DELEGATIONS;
        }
      }
      i := i + 1;
    }
    PrefixCounts(ds, i);
  }

  /**
   How many delegations count: with at most a hundred to existing validators, the tokens of all
   of them; with more, those of the first hundred, whatever the others hold.
   */
  lemma HundredCount(ds: seq<Option<nat>>, more: seq<Option<nat>>)
    ensures |Live(ds)| <= 100 ==> Stake(ds) == SumOf(Live(ds))
    ensures |Live(ds)| == 100 ==> Stake(ds + more) == SumOf(Live(ds))
  {
    LiveSplit(ds, more);
    if |Live(ds)| == 100 { assert FirstOf(Live(ds) + Live(more), 100) == Live(ds); }
  }

  /**
   When an account may vote: with a minimum of zero always; with a positive one exactly if its
   tokens, counted as above, reach it; with a negative one exactly if there are any to count.
   */
  lemma MayVoteIff(st: Staking, voter: Address)
    requires st.delegations(voter).Some?
    ensures var ds := st.delegations(voter).value;
            VoteError(st, VoteMsg(Some(voter))) == None <==>
            || st.minimum == 0
            || (st.minimum > 0 && st.minimum <= Stake(ds))
            || (st.minimum < 0 && exists d :: d in ds && d.Some?)
  {
    LiveIff(st.delegations(voter).value);
  }

  lemma {:induction false} LiveIff(ds: seq<Option<nat>>)
    ensures Live(ds) != [] <==> exists d :: d in ds && d.Some?
    decreases |ds|
  {
    if ds != [] {
      LiveIff(ds[1..]);
      assert ds[0] in ds && forall d | d in ds :: d == ds[0] || d in ds[1..];
      assert forall d | d in ds[1..] :: d in ds;
    }
  }

  lemma SumOne(x: nat)
    ensures SumOf([x]) == x
  {
    assert [x][1..] == [];
  }

  // ---------------------------------------------------------------- messages

  /** What the gate says of one message that is not an authz wrapper; anything but a MsgVote is fine. */
  function VoteError(st: Staking, m: Msg): Option<GateError> {
    match m
    case VoteMsg(None) => Some(BadAddress)
    case VoteMsg(Some(voter)) =>
      if st.minimum == 0 then None
      else
        (match st.delegations(voter)
         case None => Some(StakingFailure)
         case Some(ds) => if HasStake(ds, st.minimum) then None else Some(InsufficientStake))
    case WeightedVoteMsg(_) => None
    case ExecMsg(_) => None
    case OtherMsg => None
  }

  /** The messages the gate looks at: those of the transaction, and those one level inside an authz wrapper. */
  function Unwrapped(m: Msg): seq<Option<Msg>> {
    if m.ExecMsg? then m.inner else [Some(m)]
  }

  function AllUnwrapped(msgs: seq<Msg>): seq<Option<Msg>>
    decreases |msgs|
  {
    if msgs == [] then [] else Unwrapped(msgs[0]) + AllUnwrapped(msgs[1..])
  }

  predicate Fine(st: Staking, m: Option<Msg>) {
    m.Some? && VoteError(st, m.value).None?
  }

  function ErrorOf(st: Staking, m: Option<Msg>): Option<GateError> {
    if m.None? then Some(CannotUnpack) else VoteError(st, m.value)
  }

  /** The error of the first message that has one. */
  function FirstError(st: Staking, ms: seq<Option<Msg>>): Option<GateError>
    decreases |ms|
  {
    if ms == [] then None
    else if ErrorOf(st, ms[0]).Some? then ErrorOf(st, ms[0])
    else FirstError(st, ms[1..])
  }

  lemma {:induction false} FirstErrorSplit(st: Staking, a: seq<Option<Msg>>, b: seq<Option<Msg>>)
    ensures FirstError(st, a + b) == if FirstError(st, a).Some? then FirstError(st, a) else FirstError(st, b)
    decreases |a|
  {
    if a == [] {
      assert a + b == b;
    } else {
      FirstErrorSplit(st, a[1..], b);
      assert (a + b)[1..] == a[1..] + b;
    }
  }

  method ValidMsg(st: Staking, m: Msg) returns (err: Option<GateError>)
    ensures err == VoteError(st, m)
  {
    match m
    case VoteMsg(voter) =>
      if voter.None? { return Some(BadAddress); }
      if st.minimum == 0 { return None; }
      var ds := st.delegations(voter.value);
      if ds.None? { return Some(StakingFailure); }
      var enough := EnoughStake(ds.value, st.minimum);
      return if enough then None else Some(InsufficientStake);
    case WeightedVoteMsg(_) => return None;
    case ExecMsg(_) => return None;
    case OtherMsg => return None;
  }

  method ValidAuthz(st: Staking, inner: seq<Option<Msg>>) returns (err: Option<GateError>)
    ensures err == FirstError(st, inner)
  {
    assert inner[0..] == inner;
    for i := 0 to |inner|
      invariant FirstError(st, inner[i..]) == FirstError(st, inner)
    {
      assert inner[i..][1..] == inner[i + 1..];
      if inner[i].None? { return Some(CannotUnpack); }
      err := ValidMsg(st, inner[i].value);
      if err.Some? { return; }
    }
    err := None;
  }

  /** ValidateVoteMsgs: the first offending message decides. */
  method ValidateVoteMsgs(st: Staking, msgs: seq<Msg>) returns (err: Option<GateError>)
    ensures err == FirstError(st, AllUnwrapped(msgs))
    ensures err == None <==> forall m | m in AllUnwrapped(msgs) :: Fine(st, m)
  {
    AcceptedIff(st, AllUnwrapped(msgs));
    assert msgs[0..] == msgs;
    for i := 0 to |msgs|
      invariant FirstError(st, AllUnwrapped(msgs[i..])) == FirstError(st, AllUnwrapped(msgs))
    {
      assert msgs[i..][1..] == msgs[i + 1..];
      FirstErrorSplit(st, Unwrapped(msgs[i]), AllUnwrapped(msgs[i + 1..]));
      if msgs[i].ExecMsg? {
        err := ValidAuthz(st, msgs[i].inner);
      } else {
        err := ValidMsg(st, msgs[i]);
        OnlyMessage(st, Some(msgs[i]));
      }
      if err.Some? { return; }
    }
    err := None;
  }

  lemma OnlyMessage(st: Staking, m: Option<Msg>)
    ensures FirstError(st, [m]) == ErrorOf(st, m)
  {
    assert [m][1..] == [];
  }

  /** The gate accepts exactly when every message it looks at is fine. */
  lemma {:induction false} AcceptedIff(st: Staking, ms: seq<Option<Msg>>)
    ensures FirstError(st, ms) == None <==> forall m | m in ms :: Fine(st, m)
    decreases |ms|
  {
    if ms != [] {
      AcceptedIff(st, ms[1..]);
      assert ms[0] in ms && forall m | m in ms :: m == ms[0] || m in ms[1..];
      assert forall m | m in ms[1..] :: m in ms;
    }
  }

  /** Whatever is wrapped twice is not looked at, votes and messages that do not unpack included. */
  lemma {:induction false} WrappedTwicePasses(st: Staking, outer: seq<Option<Msg>>)
    requires forall m | m in outer :: m.Some? && m.value.ExecMsg?
    ensures FirstError(st, AllUnwrapped([ExecMsg(outer)])) == None
    decreases |outer|
  {
    assert [ExecMsg(outer)][1..] == [] && AllUnwrapped([ExecMsg(outer)]) == outer;
    if outer != [] {
      assert outer[0] in outer && forall m | m in outer[1..] :: m in outer;
      WrappedTwicePasses(st, outer[1..]);
      assert [ExecMsg(outer[1..])][1..] == [] && AllUnwrapped([ExecMsg(outer[1..])]) == outer[1..];
    }
  }

  /** MsgVoteWeighted is a vote that the gate does not look at: removing those messages changes no verdict. */
  function NoWeighted(msgs: seq<Msg>): seq<Msg>
    decreases |msgs|
  {
    if msgs == [] then []
    else if msgs[0].WeightedVoteMsg? then NoWeighted(msgs[1..])
    else [msgs[0]] + NoWeighted(msgs[1..])
  }

  lemma {:induction false} WeightedVotesPass(st: Staking, msgs: seq<Msg>)
    ensures FirstError(st, AllUnwrapped(NoWeighted(msgs))) == FirstError(st, AllUnwrapped(msgs))
    decreases |msgs|
  {
    if msgs != [] {
      WeightedVotesPass(st, msgs[1..]);
      FirstErrorSplit(st, Unwrapped(msgs[0]), AllUnwrapped(msgs[1..]));
      if msgs[0].WeightedVoteMsg? {
        OnlyMessage(st, Some(msgs[0]));
      } else {
        var ms := [msgs[0]] + NoWeighted(msgs[1..]);
        assert ms[1..] == NoWeighted(msgs[1..]);
        FirstErrorSplit(st, Unwrapped(msgs[0]), AllUnwrapped(NoWeighted(msgs[1..])));
      }
    }
  }

  /** Delegations to validators that no longer exist neither count as stake nor use up the hundred. */
  lemma GoneValidatorsDoNotCount(a: seq<Option<nat>>, b: seq<Option<nat>>, minimum: int)
    ensures HasStake(a + [None] + b, minimum) == HasStake(a + b, minimum)
  {
    LiveSplit(a + [None], b);
    LiveSplit(a, [None]);
    LiveSplit(a, b);
    LiveOne(None);
    assert Live(a) + [] == Live(a);
  }

  /** Why a vote is refused. */
  lemma VoteErrors(st: Staking, voter: Option<Address>)
    ensures var e := VoteError(st, VoteMsg(voter));
            && (e == Some(BadAddress) <==> voter.None?)
            && (e == Some(StakingFailure) <==> voter.Some? && st.minimum != 0 && st.delegations(voter.value).None?)
            && e != Some(CannotUnpack)
            && (e == Some(InsufficientStake) ==> voter.Some? && st.minimum != 0 && st.delegations(voter.value).Some?)
  {
    hide HasStake;
  }

  /** A message passes if it is no vote, or a vote that is allowed. */
  predicate Passes(st: Staking, m: Msg) {
    m.VoteMsg? ==> VoteError(st, m) == None
  }

  /**
   Which transactions pass: those in which every message passes, and inside every authz wrapper
   every message unpacks and passes; a wrapper inside a wrapper is not opened.
   */
  lemma {:induction false} TxPassesIff(st: Staking, msgs: seq<Msg>)
    ensures FirstError(st, AllUnwrapped(msgs)) == None <==>
            forall m | m in msgs ::
              Passes(st, m) && (m.ExecMsg? ==> forall x | x in m.inner :: x.Some? && Passes(st, x.value))
    decreases |msgs|
  {
    if msgs != [] {
      var m, rest := msgs[0], msgs[1..];
      TxPassesIff(st, rest);
      FirstErrorSplit(st, Unwrapped(m), AllUnwrapped(rest));
      AcceptedIff(st, Unwrapped(m));
      OnlyMessage(st, Some(m));
      assert m in msgs && forall x | x in msgs :: x == m || x in rest;
      assert forall x | x in rest :: x in msgs;
      hide AllUnwrapped;
    }
  }
}
