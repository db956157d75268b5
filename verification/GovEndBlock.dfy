/**
 EndBlocker of x/gov (x/gov/abci.go) as a function: three passes, each a fold of one step
 over the keys due when the pass begins.
 */
module GovEndBlock {
  import opened Options
  import opened GovTypes
  import opened CoinSums
  import opened GovQueue
  import opened GovStore
  import LegacyDec

  // ---------------------------------------------------------------- inactive proposals

  /** A deposit-period proposal that meets the minimum deposit after all is activated. */
  predicate MeetsDeposit(s: Store, p: Proposal) {
    p.status == DepositPeriod && RequiredDeposit(s) <= p.totalDeposit
  }

  ghost function InactiveStep(s: Store, env: Env, now: Time, id: nat): Store {
    if id !in s.proposals then HaltIf(s, true)
    else if MeetsDeposit(s, s.proposals[id]) then Activate(s, env, now, id)
    else
      var s1 := SettleDeposits(DeleteProposal(s, id), id, s.params.burnPrevote);
      HaltIf(s1.(nInactive := Pred(s1.nInactive)), s1.nInactive == 0)
  }

  ghost function InactivePass(s: Store, env: Env, now: Time, ks: seq<QKey>): Store
    decreases |ks|
  {
    if ks == [] then s else InactivePass(InactiveStep(s, env, now, ks[0].id), env, now, ks[1..])
  }

  // ---------------------------------------------------------------- quorum checks

  datatype Next = At(time: Time) | DivideByZero

  /** The next check time, as computed from the time of the check that just failed. */
  function NextCheck(at: Time, entry: QuorumEntry, votingEnd: Time, now: Time): Next {
    var period := votingEnd - entry.timeout;
    if entry.count == 0 then DivideByZero
    else
      var t := LegacyDec.TruncDiv(period, entry.count);
      var next := at + t;
      if next <= now then
        if t == 0 then DivideByZero
        else
          var d := now - next;
          var n := LegacyDec.TruncDiv(d, t);
          Capped(next + t * (n + 1), votingEnd)
      else Capped(next, votingEnd)
  }

  function Capped(next: Time, votingEnd: Time): Next {
    if next > votingEnd then At(votingEnd) else At(next)
  }

  /** Late quorum: the voting period ends MaxVotingPeriodExtension from now, if that is later. */
  predicate Extends(s: Store, now: Time, entry: QuorumEntry, p: Proposal) {
    entry.done > 0 && p.votingEnd.Some? && now + s.params.extension > p.votingEnd.value
  }

  function MoveEnd(s: Store, id: nat, p: Proposal, end: Time): Store
    requires p.votingEnd.Some?
  {
    s.(active := s.active - {QKey(p.votingEnd.value, id)} + {QKey(end, id)},
       proposals := s.proposals[id := p.(votingEnd := Some(end))])
  }

  ghost function VotersOf(s: Store, id: nat): set<Address> {
    VotesOf(s, id).Keys
  }

  /** What one quorum check does to its entry and proposal. */
  datatype QuorumEffect = Removed | Extended | Rescheduled(next: Time) | Crashed

  /** The branches of the quorum-check callback. */
  ghost function EffectOf(s: Store, env: Env, now: Time, k: QKey): QuorumEffect
    requires k in s.quorum && k.id in s.proposals && s.proposals[k.id].votingEnd.Some?
  {
    var entry, p := s.quorum[k], s.proposals[k.id];
    match HasReachedQuorum(env, s.world, p, VotersOf(s, k.id))
    case QuorumError => Removed
    case Reached => if Extends(s, now, entry, p) then Extended else Removed
    case NotReached =>
      if entry.done < entry.count && p.votingEnd.value > now then
        match NextCheck(k.time, entry, p.votingEnd.value, now)
        case DivideByZero => Crashed
        case At(next) => Rescheduled(next)
      else Removed
  }

  function ApplyEffect(s: Store, now: Time, k: QKey, eff: QuorumEffect): Store
    requires k in s.quorum && k.id in s.proposals && s.proposals[k.id].votingEnd.Some?
  {
    var s1 := s.(quorum := s.quorum - {k});
    match eff
    case Removed => s1
    case Extended => MoveEnd(s1, k.id, s.proposals[k.id], now + s.params.extension)
    case Rescheduled(next) =>
      s1.(quorum := s1.quorum[QKey(next, k.id) := s.quorum[k].(done := s.quorum[k].done + 1)])
    case Crashed => HaltIf(s1, true)
  }

  ghost function QuorumStep(s: Store, env: Env, now: Time, k: QKey): Store {
    if k !in s.quorum || k.id !in s.proposals || s.proposals[k.id].votingEnd.None? then HaltIf(s, true)
    else ApplyEffect(s, now, k, EffectOf(s, env, now, k))
  }

  ghost function QuorumPass(s: Store, env: Env, now: Time, ks: seq<QKey>): Store
    decreases |ks|
  {
    if ks == [] then s else QuorumPass(QuorumStep(s, env, now, ks[0]), env, now, ks[1..])
  }

  // ---------------------------------------------------------------- tally

  /** The handlers of a proposal's messages in order, on a cached context; None if one fails. */
  function RunMessages(env: Env, w: World, msgs: seq<Option<Message>>): Option<World>
    decreases |msgs|
  {
    if msgs == [] then Some(w)
    else if msgs[0].None? then None
    else
      match env.handle(w, msgs[0].value)
      case None => None
      case Some(w') => RunMessages(env, w', msgs[1..])
  }

  /** GetMsgs fails before any handler runs if some message does not unpack. */
  predicate AllUnpack(msgs: seq<Option<Message>>) {
    forall m | m in msgs :: m.Some?
  }

  function Execute(env: Env, w: World, msgs: seq<Option<Message>>): (Status, World) {
    if !AllUnpack(msgs) then (Failed, w)
    else
      match RunMessages(env, w, msgs)
      case None => (Failed, w)
      case Some(w') => (Passed, w')
  }

  function Verdict(env: Env, w: World, p: Proposal, o: TallyOutcome): (Status, World) {
    if o.passes then Execute(env, w, p.messages) else (Rejected, w)
  }

  ghost function ActiveStep(s: Store, env: Env, id: nat): Store {
    if id !in s.proposals || s.proposals[id].votingEnd.None? then HaltIf(s, true)
    else
      var p := s.proposals[id];
      var o := env.tally(s.world, p, VotesOf(s, id));
      var s1 := SettleDeposits(s.(votes := TalliedVotes(s.votes, id, o.err)), id, o.burn);
      var (status, w) := Verdict(env, s1.world, p, o);
      var p' := p.(status := status, tally := o.result);
      HaltIf(s1.(proposals := s1.proposals[id := p'],
                 active := s1.active - {QKey(p.votingEnd.value, id)},
                 nActive := Pred(s1.nActive),
                 world := env.afterTally(w, p', o)),
             s1.nActive == 0)
  }

  ghost function ActivePass(s: Store, env: Env, ks: seq<QKey>): Store
    decreases |ks|
  {
    if ks == [] then s else ActivePass(ActiveStep(s, env, ks[0].id), env, ks[1..])
  }

  // ---------------------------------------------------------------- the block

  ghost function AfterInactive(s: Store, env: Env, now: Time): Store {
    InactivePass(s, env, now, DueKeys(s.inactive, now))
  }

  ghost function AfterQuorum(s: Store, env: Env, now: Time): Store {
    QuorumPass(s, env, now, DueKeys(s.quorum.Keys, now))
  }

  ghost function AfterActive(s: Store, env: Env, now: Time): Store {
    ActivePass(s, env, DueKeys(s.active, now))
  }

  ghost function EndBlock(s: Store, env: Env, now: Time): Store {
    var s3 := AfterActive(AfterQuorum(AfterInactive(s, env, now), env, now), env, now);
    s3.(minDeposit := env.throttle(s3.params, s3.minDeposit, s3.nActive, true, now))
  }

  // ---------------------------------------------------------------- messages

  /** A chain of worlds in which each handler takes one to the next. */
  ghost predicate Chain(env: Env, ws: seq<World>, msgs: seq<Option<Message>>) {
    && |ws| == |msgs| + 1
    && forall i | 0 <= i < |msgs| :: msgs[i].Some? && env.handle(ws[i], msgs[i].value) == Some(ws[i + 1])
  }

  lemma {:induction false} RunMessagesIff(env: Env, w: World, msgs: seq<Option<Message>>)
    requires AllUnpack(msgs)
    ensures forall ws :: Chain(env, ws, msgs) && ws[0] == w ==> RunMessages(env, w, msgs) == Some(ws[|msgs|])
    ensures RunMessages(env, w, msgs).Some? ==> exists ws :: Chain(env, ws, msgs) && ws[0] == w
    decreases |msgs|
  {
    if msgs == [] {
      assert Chain(env, [w], msgs);
    } else {
      assert msgs[0] in msgs;
      var r := env.handle(w, msgs[0].value);
      if r.Some? {
        RunMessagesIff(env, r.value, msgs[1..]);
        if RunMessages(env, r.value, msgs[1..]).Some? {
          var rest :| Chain(env, rest, msgs[1..]) && rest[0] == r.value;
          assert Chain(env, [w] + rest, msgs);
        }
      }
      forall ws | Chain(env, ws, msgs) && ws[0] == w ensures RunMessages(env, w, msgs) == Some(ws[|msgs|]) {
        assert env.handle(ws[0], msgs[0].value) == Some(ws[1]);
        assert Chain(env, ws[1..], msgs[1..]);
      }
    }
  }

  /**
   All or nothing: a passed proposal executes exactly when all its messages unpack and its
   handlers succeed one after the other; then the world is the last of that chain, and
   otherwise the proposal fails and the world is untouched.
   */
  lemma AllOrNothing(env: Env, w: World, msgs: seq<Option<Message>>)
    ensures Execute(env, w, msgs).0 == Passed <==>
            AllUnpack(msgs) && exists ws :: Chain(env, ws, msgs) && ws[0] == w
    ensures forall ws :: AllUnpack(msgs) && Chain(env, ws, msgs) && ws[0] == w ==> Execute(env, w, msgs).1 == ws[|msgs|]
    ensures Execute(env, w, msgs).0 != Passed ==> Execute(env, w, msgs) == (Failed, w)
  {
    if AllUnpack(msgs) { RunMessagesIff(env, w, msgs); }
  }

  // ---------------------------------------------------------------- rescheduling

  /**
   The rescheduled time is the first point of the grid at + k*t, k >= 1, that lies after now,
   or the end of the voting period if that comes first; either way it lies after now.
   */
  lemma NextCheckIsFirstAfterNow(at: Time, entry: QuorumEntry, votingEnd: Time, now: Time) returns (k: nat)
    requires at <= now < votingEnd
    requires 1 <= entry.count <= votingEnd - entry.timeout
    ensures k >= 1
    ensures var t := (votingEnd - entry.timeout) / entry.count;
            && t >= 1
            && at + k * t > now
            && (forall j: nat | 1 <= j < k :: at + j * t <= now)
            && NextCheck(at, entry, votingEnd, now) == At(if at + k * t > votingEnd then votingEnd else at + k * t)
    ensures NextCheck(at, entry, votingEnd, now).time > now
  {
    var period := votingEnd - entry.timeout;
    var t := period / entry.count;
    LegacyDec.DivLargest(period, entry.count, 1);
    var next := at + t;
    if next <= now {
      var d := now - next;
      var n := d / t;
      LegacyDec.DivBound(d, t);
      k := n + 2;
      assert k * t == t + t * (n + 1);
      assert t * (n + 1) == n * t + t;
      forall j: nat | 1 <= j < k ensures at + j * t <= now {
        LegacyDec.MulLe(j, n + 1, t);
      }
    } else {
      k := 1;
    }
  }

  /** The reschedule divides by zero exactly when the period holds fewer nanoseconds than checks. */
  lemma NextCheckPanicsIff(at: Time, entry: QuorumEntry, votingEnd: Time, now: Time)
    requires at <= now && entry.count >= 1 && entry.timeout <= votingEnd
    ensures NextCheck(at, entry, votingEnd, now) == DivideByZero <==> votingEnd - entry.timeout < entry.count
  {
    var period := votingEnd - entry.timeout;
    LegacyDec.DivLargest(period, entry.count, 1);
    LegacyDec.DivBound(period, entry.count);
    if period < entry.count && period / entry.count >= 1 { assert false; }
  }

  /** Two checks in a period of one nanosecond: parameters that validation accepts, and a panic. */
  lemma NextCheckPanicExample()
    ensures NextCheck(10, QuorumEntry(10, 2, 0), 11, 10) == DivideByZero
  {
    assert 1 / 2 == 0;
  }
}
