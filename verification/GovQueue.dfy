/**
 Time-ordered queues as the KV store iterates over them: by end time, then by proposal id,
 up to and including a given time (x/gov/keeper/keeper.go).  A pass over a queue is
 described by the sequence of keys due when it starts; the live iterator, which asks the
 changing queue for its next key, is shown to visit the same sequence.
 */
module GovQueue {
  import opened Options
  import opened GovTypes

  lemma {:induction false} LeastExists(q: set<QKey>)
    requires q != {}
    ensures exists k :: IsLeast(k, q)
    decreases |q|
  {
    var x :| x in q;
    if q == {x} {
      assert IsLeast(x, q);
    } else {
      LeastExists(q - {x});
      var y :| IsLeast(y, q - {x});
      var z := if x.Before(y) then x else y;
      forall k | k in q && k != z ensures z.Before(k) {
        assert k == x || k in q - {x};
      }
      assert IsLeast(z, q);
    }
  }

  predicate IsLeast(k: QKey, q: set<QKey>) {
    k in q && forall x | x in q && x != k :: k.Before(x)
  }

  /** The keys an iterator bounded by endTime covers; the bound is inclusive. */
  function Due(q: set<QKey>, endTime: Time): set<QKey> {
    set k | k in q && k.time <= endTime
  }

  ghost function Least(q: set<QKey>): (k: QKey)
    requires q != {}
    ensures IsLeast(k, q)
  {
    LeastExists(q);
    var k :| IsLeast(k, q);
    k
  }

  /** The elements of q in key order. */
  ghost function Sorted(q: set<QKey>): (ks: seq<QKey>)
    ensures forall k :: k in ks <==> k in q
    ensures forall i, j | 0 <= i < j < |ks| :: ks[i].Before(ks[j])
  {
    if q == {} then [] else
      var k := Least(q);
      [k] + Sorted(q - {k})
  }

  /** The due keys of q in the order the store iterates over them. */
  ghost function DueKeys(q: set<QKey>, endTime: Time): (ks: seq<QKey>)
    ensures forall k :: k in ks <==> k in q && k.time <= endTime
    ensures forall i, j | 0 <= i < j < |ks| :: ks[i].Before(ks[j])
  {
    Sorted(Due(q, endTime))
  }

  /** The keys come by time, and by id where the times are equal; nothing that is due is missing and nothing comes twice. */
  lemma DueKeysInOrder(q: set<QKey>, endTime: Time)
    ensures var ks := DueKeys(q, endTime);
            && (forall k :: k in ks <==> k in q && k.time <= endTime)
            && forall i, j | 0 <= i < j < |ks| ::
                 ks[i].time < ks[j].time || (ks[i].time == ks[j].time && ks[i].id < ks[j].id)
  {
    var ks := DueKeys(q, endTime);
    hide Sorted, Due;
    assert forall i, j | 0 <= i < j < |ks| :: ks[i].Before(ks[j]);
  }

  /** The keys a live iterator can still reach: due, and after the key it stands on. */
  function Ahead(q: set<QKey>, endTime: Time, at: Option<QKey>): set<QKey> {
    set k | k in q && k.time <= endTime && (at.None? || at.value.Before(k))
  }

  /**
   The live iterator.  If the keys still ahead in the current queue are those of rest, then
   the iterator is valid exactly when rest is nonempty, and the least key ahead is rest[0].
   */
  lemma LiveNext(q: set<QKey>, endTime: Time, at: Option<QKey>, rest: seq<QKey>)
    requires forall k :: k in rest <==> k in Ahead(q, endTime, at)
    requires forall i, j | 0 <= i < j < |rest| :: rest[i].Before(rest[j])
    ensures Ahead(q, endTime, at) == {} <==> rest == []
    ensures rest != [] ==> IsLeast(rest[0], Ahead(q, endTime, at))
  {
    if rest != [] {
      assert rest[0] in rest;
    } else {
      assert forall k :: k !in Ahead(q, endTime, at);
    }
  }

  /**
   After a step at rest[0], a queue that differs only at or before that key, or past endTime,
   has the rest of the sequence ahead: the live iterator visits the snapshot.
   */
  lemma LiveStep(q: set<QKey>, q': set<QKey>, endTime: Time, at: Option<QKey>, rest: seq<QKey>)
    requires rest != []
    requires forall k :: k in rest <==> k in Ahead(q, endTime, at)
    requires forall i, j | 0 <= i < j < |rest| :: rest[i].Before(rest[j])
    requires forall k: QKey | k.time <= endTime && rest[0].Before(k) :: k in q <==> k in q'
    ensures forall k :: k in rest[1..] <==> k in Ahead(q', endTime, Some(rest[0]))
    ensures forall i, j | 0 <= i < j < |rest[1..]| :: rest[1..][i].Before(rest[1..][j])
  {
    forall k ensures k in rest[1..] <==> k in Ahead(q', endTime, Some(rest[0])) {
      if k in rest[1..] {
        var i :| 0 <= i < |rest[1..]| && rest[1..][i] == k;
        assert rest[1..][i] == rest[i + 1];
        assert k in rest && rest[0].Before(rest[i + 1]);
      }
      if k in Ahead(q', endTime, Some(rest[0])) {
        assert at.Some? ==> at.value.Before(rest[0]) by { assert rest[0] in rest; }
        assert k in Ahead(q, endTime, at);
        assert k in rest && k != rest[0];
        var i :| 0 <= i < |rest| && rest[i] == k;
        assert rest[1..][i - 1] == k;
      }
    }
  }

  /** rest is what a live iterator standing on at has still to visit, in order. */
  ghost predicate Upcoming(q: set<QKey>, endTime: Time, at: Option<QKey>, rest: seq<QKey>) {
    && (forall k :: k in rest <==> k in Ahead(q, endTime, at))
    && (forall i, j | 0 <= i < j < |rest| :: rest[i].Before(rest[j]))
  }

  lemma UpcomingStart(q: set<QKey>, endTime: Time)
    ensures Upcoming(q, endTime, None, DueKeys(q, endTime))
  {
    hide Sorted, Due;
  }

  lemma UpcomingNext(q: set<QKey>, endTime: Time, at: Option<QKey>, rest: seq<QKey>)
    requires Upcoming(q, endTime, at, rest) && Ahead(q, endTime, at) != {}
    ensures rest != [] && IsLeast(rest[0], Ahead(q, endTime, at))
    ensures forall k :: IsLeast(k, Ahead(q, endTime, at)) ==> k == rest[0]
    ensures rest[0] in q && rest[0].time <= endTime
  {
    LiveNext(q, endTime, at, rest);
  }

  lemma UpcomingStep(q: set<QKey>, q': set<QKey>, endTime: Time, at: Option<QKey>, rest: seq<QKey>)
    requires Upcoming(q, endTime, at, rest) && rest != []
    requires forall k: QKey | k.time <= endTime && rest[0].Before(k) :: k in q <==> k in q'
    ensures Upcoming(q', endTime, Some(rest[0]), rest[1..])
  {
    LiveStep(q, q', endTime, at, rest);
  }

  lemma UpcomingEnd(q: set<QKey>, endTime: Time, at: Option<QKey>, rest: seq<QKey>)
    requires Upcoming(q, endTime, at, rest) && Ahead(q, endTime, at) == {}
    ensures rest == []
  {
    LiveNext(q, endTime, at, rest);
  }
}
