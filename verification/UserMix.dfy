/** The mixed workload's user generator (benchmark/hicache/bench_mix.py, class UserGenerator):
    users come out of a queue or are made new, go through their rounds, and are counted per
    round on the way in and on the way out. Randomness and the clock are parameters. */
module UserMix {
  import opened Counting

  /** `start` is the time before which the user must not be taken from the queue. */
  datatype User = User(id: nat, round: nat, total: nat, start: real)

  function AtRound(us: seq<User>, r: nat): nat {
    if us == [] then 0 else AtRound(us[..|us| - 1], r) + if us[|us| - 1].round == r then 1 else 0
  }

  lemma {:induction false} AtRoundConcat(a: seq<User>, b: seq<User>, r: nat)
    ensures AtRound(a + b, r) == AtRound(a, r) + AtRound(b, r)
  {
    if b == [] {
      assert a + b == a;
    } else {
      var n := |b| - 1;
      assert (a + b)[..|a + b| - 1] == a + b[..n];
      AtRoundConcat(a, b[..n], r);
    }
  }

  lemma {:induction false} AtRoundOne(u: User, r: nat)
    ensures AtRound([u], r) == if u.round == r then 1 else 0
  {
    assert [u][..0] == [];
  }

  lemma {:induction false} AtRoundWithout(us: seq<User>, i: nat, r: nat)
    requires i < |us|
    ensures AtRound(Without(us, i), r) == AtRound(us, r) - if us[i].round == r then 1 else 0
  {
    hide AtRound;
    assert us == us[..i] + ([us[i]] + us[i + 1..]);
    AtRoundConcat(us[..i], [us[i]] + us[i + 1..], r);
    AtRoundConcat([us[i]], us[i + 1..], r);
    AtRoundOne(us[i], r);
    AtRoundConcat(us[..i], us[i + 1..], r);
  }

  // ---------- the queue ----------

  /** Where `push` inserts into a non-empty queue: before the first later entry, or, because the
      loop variable is used where its result was meant, before the last entry. */
  function Slot(q: seq<User>, start: real): (i: nat)
    requires q != []
    ensures i < |q|
    ensures forall k :: 0 <= k < i ==> q[k].start <= start
    ensures start < q[i].start || i == |q| - 1
  {
    if start < q[0].start || |q| == 1 then 0 else 1 + Slot(q[1..], start)
  }

  function Inserted(q: seq<User>, u: User): seq<User> {
    if q == [] then [u] else q[..Slot(q, u.start)] + [u] + q[Slot(q, u.start)..]
  }

  lemma {:induction false} AtRoundInserted(q: seq<User>, u: User, r: nat)
    ensures AtRound(Inserted(q, u), r) == AtRound(q, r) + if u.round == r then 1 else 0
  {
    hide AtRound;
    AtRoundOne(u, r);
    if q == [] {
      assert q + [u] == Inserted(q, u);
      AtRoundConcat(q, [u], r);
    } else {
      var k := Slot(q, u.start);
      assert q == q[..k] + q[k..];
      AtRoundConcat(q[..k], q[k..], r);
      AtRoundConcat(q[..k] + [u], q[k..], r);
      AtRoundConcat(q[..k], [u], r);
    }
  }

  lemma {:induction false} InsertedMember(q: seq<User>, u: User)
    ensures forall k :: 0 <= k < |Inserted(q, u)| ==> Inserted(q, u)[k] == u || Inserted(q, u)[k] in q
  {
  }

  ghost predicate InStartOrder(q: seq<User>) {
    forall i, j :: 0 <= i < j < |q| ==> q[i].start <= q[j].start
  }

  /** The queue is meant to be in start order, since only its head is looked at. An insertion
      keeps that order if and only if the newcomer is no later than the last entry. */
  lemma {:induction false} InsertKeepsOrderIff(q: seq<User>, u: User)
    requires InStartOrder(q)
    ensures InStartOrder(Inserted(q, u)) <==> q == [] || u.start <= q[|q| - 1].start
  {
    if q != [] {
      var k := Slot(q, u.start);
      var r := Inserted(q, u);
      assert r[k] == u && r[k + 1] == q[k];
      if u.start <= q[|q| - 1].start {
        forall i, j | 0 <= i < j < |r| ensures r[i].start <= r[j].start {
          assert r[i] == if i < k then q[i] else if i == k then u else q[i - 1];
          assert r[j] == if j < k then q[j] else if j == k then u else q[j - 1];
        }
      } else {
        assert k == |q| - 1;
      }
    }
  }

  /** So a later newcomer overtakes the last entry: two users due at 1 and 2 come out as 2, 1. */
  lemma {:induction false} LateUserOvertakes(a: User, b: User)
    requires a.start == 1.0 && b.start == 2.0
    ensures Inserted([a], b) == [b, a] && !InStartOrder(Inserted([a], b))
  {
    var r := Inserted([a], b);
    assert r == [b, a];
    assert r[0].start > r[1].start;
  }

  // ---------- the generator ----------

  /** `gen`: the number of rounds for a random draw over the cumulative ratios. */
  method PickRounds(cumulative: seq<nat>, draw: nat) returns (total: nat)
    requires cumulative != []
    ensures 1 <= total <= |cumulative|
    ensures forall k :: 0 <= k < total - 1 ==> cumulative[k] <= draw
    ensures draw < cumulative[total - 1] || total == |cumulative|
  {
    total := |cumulative|;
    for i := 0 to |cumulative|
      invariant total == |cumulative|
      invariant forall k :: 0 <= k < i ==> cumulative[k] <= draw
    {
      if draw < cumulative[i] {
        return i + 1;
      }
    }
  }

  class UserGenerator {
    const cumulative: seq<nat>
    var userId: nat
    var queue: seq<User>
    var userStats: seq<nat>
    var inputCount: seq<nat>
    var outputCount: seq<nat>
    /** Users handed out and not yet pushed back. */
    ghost var inFlight: seq<User>

    ghost predicate Live(u: User)
      reads this
    {
      u.id < userId && u.round < u.total <= |cumulative|
    }

    /** Unfinished users of a round: what went in and has not come out. */
    ghost predicate Balanced(r: nat)
      reads this
      requires r < |inputCount| && r < |outputCount|
    {
      inputCount[r] == outputCount[r] + AtRound(queue, r) + AtRound(inFlight, r)
    }

    ghost predicate Valid()
      reads this
    {
      && cumulative != []
      && |userStats| == |inputCount| == |outputCount| == |cumulative|
      && (forall i :: 0 <= i < |queue| ==> Live(queue[i]))
      && (forall i :: 0 <= i < |inFlight| ==> Live(inFlight[i]))
      && (forall r: nat :: r < |cumulative| ==> Balanced(r))
      && Sum(userStats) == userId
    }

    constructor (cumulative: seq<nat>)
      requires cumulative != []
      ensures Valid() && userId == 0 && queue == [] && inFlight == [] && this.cumulative == cumulative
    {
      this.cumulative := cumulative;
      userId, queue, inFlight := 0, [], [];
      var zeros := seq(|cumulative|, _ => 0);
      SumConstant(zeros, 0);
      userStats, inputCount, outputCount := zeros, zeros, zeros;
    }

    /** `gen`. */
    method Generate(draw: nat) returns (u: User)
      requires Valid()
      modifies this`userId, this`userStats, this`inputCount, this`inFlight
      ensures Valid()
      ensures u == User(old(userId), 0, u.total, 0.0) && userId == old(userId) + 1
      ensures inFlight == old(inFlight) + [u]
      ensures 1 <= u.total <= |cumulative|
      ensures userStats == old(userStats)[u.total - 1 := old(userStats)[u.total - 1] + 1]
      ensures inputCount == old(inputCount)[0 := old(inputCount)[0] + 1]
    {
      var id := userId;
      var total := PickRounds(cumulative, draw);
      u := User(id, 0, total, 0.0);
      SumUpdate(userStats, total - 1, userStats[total - 1] + 1);
      ghost var counts := inputCount;
      userId := userId + 1;
      inputCount := inputCount[0 := inputCount[0] + 1];
      userStats := userStats[total - 1 := userStats[total - 1] + 1];
      inFlight := inFlight + [u];
      forall i | 0 <= i < |inFlight| ensures Live(inFlight[i]) {
        assert i < |old(inFlight)| ==> old(Live(inFlight[i]));
      }
      forall i | 0 <= i < |queue| ensures Live(queue[i]) {
        assert old(Live(queue[i]));
      }
      forall r: nat | r < |cumulative| ensures Balanced(r) {
        assert old(Balanced(r));
        AtRoundConcat(old(inFlight), [u], r);
        AtRoundOne(u, r);
      }
    }

    /** `pop`: the head of the queue if it is due, else a new user. */
    method Take(now: real, draw: nat) returns (u: User)
      requires Valid()
      modifies this`userId, this`userStats, this`inputCount, this`inFlight, this`queue
      ensures Valid() && Live(u) && inFlight == old(inFlight) + [u]
      ensures old(queue) != [] && now > old(queue)[0].start ==>
                u == old(queue)[0] && queue == old(queue)[1..] && userId == old(userId) &&
                inputCount == old(inputCount) && userStats == old(userStats)
      ensures old(queue) == [] || now <= old(queue)[0].start ==>
                u.id == old(userId) && u.round == 0 && queue == old(queue) && userId == old(userId) + 1
    {
      if queue != [] && now > queue[0].start {
        u := queue[0];
        ghost var q := queue;
        assert Without(q, 0) == q[1..];
        queue := queue[1..];
        inFlight := inFlight + [u];
        forall r: nat | r < |cumulative| ensures Balanced(r) {
          assert old(Balanced(r));
          AtRoundWithout(q, 0, r);
          AtRoundConcat(old(inFlight), [u], r);
          AtRoundOne(u, r);
        }
        forall i | 0 <= i < |inFlight| ensures Live(inFlight[i]) {
          assert i < |old(inFlight)| ==> old(Live(inFlight[i]));
        }
      } else {
        u := Generate(draw);
      }
    }

    /** `push`: count the finished round, and queue the user again if it has rounds left. `i` is
        the user's place among those in flight, `start` the time of its next round. */
    method Push(u: User, ghost i: nat, start: real)
      requires Valid() && i < |inFlight| && inFlight[i] == u
      modifies this`queue, this`inputCount, this`outputCount, this`inFlight
      ensures Valid() && inFlight == Without(old(inFlight), i)
      ensures && outputCount == old(outputCount)[u.round := old(outputCount)[u.round] + 1]
              && (u.round + 1 >= u.total ==> queue == old(queue) && inputCount == old(inputCount))
              && (u.round + 1 < u.total ==>
                    && queue == Inserted(old(queue), u.(round := u.round + 1, start := start))
                    && inputCount == old(inputCount)[u.round + 1 := old(inputCount)[u.round + 1] + 1])
    {
      hide AtRound, Sum;
      ghost var before := inFlight;
      assert Live(u);
      outputCount := outputCount[u.round := outputCount[u.round] + 1];
      inFlight := inFlight[..i] + inFlight[i + 1..];
      var next := u.(round := u.round + 1, start := start);
      if next.round < next.total {
        inputCount := inputCount[next.round := inputCount[next.round] + 1];
        InsertUser(next);
      }
      forall r: nat | r < |cumulative| ensures Balanced(r) {
        assert old(Balanced(r));
        AtRoundWithout(before, i, r);
        AtRoundInserted(old(queue), next, r);
      }
      forall k | 0 <= k < |inFlight| ensures Live(inFlight[k]) {
        assert old(Live(before[if k < i then k else k + 1]));
      }
      forall k | 0 <= k < |queue| ensures Live(queue[k]) {
        InsertedMember(old(queue), next);
      }
    }

    /** The insertion loop of `push`. */
    method InsertUser(u: User)
      modifies this`queue
      ensures queue == Inserted(old(queue), u)
    {
      if |queue| == 0 {
        queue := queue + [u];
      } else {
        var idx := 0;
        while idx < |queue| - 1 && !(u.start < queue[idx].start)
          invariant 0 <= idx < |queue|
          invariant idx + Slot(queue[idx..], u.start) == Slot(queue, u.start)
        {
          assert queue[idx..][1..] == queue[idx + 1..];
          idx := idx + 1;
        }
        queue := queue[..idx] + [u] + queue[idx..];
      }
    }
  }
}
