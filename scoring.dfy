/**
 * The per-team point tally that three places of the application compute
 * with the same loop: `scores[r.teamId] = (scores[r.teamId] || 0) + r.points`
 * over the results in order, starting from a map of initial scores.
 */
module Scoring {
  import opened Entities

  /** A score table, a JavaScript object from team id to points. */
  type Scores = map<string, nat>

  /** `scores[k] || 0`: a missing entry reads as 0. */
  function Lookup(m: Scores, k: string): nat {
    if k in m then m[k] else 0
  }

  /**
   * The loop's guard: `result.teamId && result.points` when needPoints
   * holds, `r.teamId` alone when it does not.
   */
  predicate Counted(r: Result, needPoints: bool) {
    r.teamId != "" && (!needPoints || r.points != 0)
  }

  /** One iteration of the loop body. */
  function Credit(m: Scores, r: Result, needPoints: bool): Scores {
    if Counted(r, needPoints) then m[r.teamId := Lookup(m, r.teamId) + r.points] else m
  }

  /** The table after the loop has visited every result of rs, first to last. */
  function Tally(m: Scores, rs: seq<Result>, needPoints: bool): Scores
    decreases |rs|
  {
    if rs == [] then m
    else Credit(Tally(m, rs[..|rs| - 1], needPoints), rs[|rs| - 1], needPoints)
  }

  /** Reference definition: the points of the results whose teamId is t. */
  function TeamPoints(rs: seq<Result>, t: string): nat {
    if rs == [] then 0
    else (if rs[0].teamId == t then rs[0].points else 0) + TeamPoints(rs[1..], t)
  }

  /** Reference definition: the points of all results that carry a teamId. */
  function CreditedPoints(rs: seq<Result>): nat {
    if rs == [] then 0
    else (if rs[0].teamId != "" then rs[0].points else 0) + CreditedPoints(rs[1..])
  }

  lemma {:induction false} TeamPointsAppend(a: seq<Result>, b: seq<Result>, t: string)
    ensures TeamPoints(a + b, t) == TeamPoints(a, t) + TeamPoints(b, t)
  {
    if a != [] {
      assert (a + b)[1..] == a[1..] + b;
      TeamPointsAppend(a[1..], b, t);
    } else {
      assert a + b == b;
    }
  }

  lemma {:induction false} CreditedPointsAppend(a: seq<Result>, b: seq<Result>)
    ensures CreditedPoints(a + b) == CreditedPoints(a) + CreditedPoints(b)
  {
    if a != [] {
      assert (a + b)[1..] == a[1..] + b;
      CreditedPointsAppend(a[1..], b);
    } else {
      assert a + b == b;
    }
  }

  /** The points of a team do not depend on the order of the results. */
  lemma {:induction false} TeamPointsPermutation(a: seq<Result>, b: seq<Result>, t: string)
    requires multiset(a) == multiset(b)
    ensures TeamPoints(a, t) == TeamPoints(b, t)
    decreases |a|
  {
    if a == [] {
      assert |b| == |multiset(b)| == 0;
    } else {
      var x := a[0];
      assert x in multiset(b);
      var j :| 0 <= j < |b| && b[j] == x;
      var rest := b[..j] + b[j + 1..];
      assert b == b[..j] + [x] + b[j + 1..];
      assert a == [x] + a[1..];
      assert multiset(a) == multiset([x]) + multiset(a[1..]);
      assert multiset(b) == multiset(b[..j]) + multiset([x]) + multiset(b[j + 1..]);
      assert multiset(rest) == multiset(b[..j]) + multiset(b[j + 1..]);
      assert multiset(a[1..]) == multiset(a) - multiset([x]);
      assert multiset(rest) == multiset(b) - multiset([x]);
      TeamPointsPermutation(a[1..], rest, t);
      TeamPointsAppend(b[..j] + [x], b[j + 1..], t);
      TeamPointsAppend(b[..j], [x], t);
      TeamPointsAppend(b[..j], b[j + 1..], t);
      assert TeamPoints([x], t) == (if x.teamId == t then x.points else 0);
    }
  }

  /** A team that no result names has no points. */
  lemma {:induction false} TeamPointsNone(rs: seq<Result>, t: string)
    requires forall i :: 0 <= i < |rs| ==> rs[i].teamId != t
    ensures TeamPoints(rs, t) == 0
  {
    if rs != [] {
      TeamPointsNone(rs[1..], t);
    }
  }

  /** Every total in the table is the initial one plus the points of that team's results. */
  lemma {:induction false} TallyLookup(m: Scores, rs: seq<Result>, needPoints: bool, t: string)
    ensures Lookup(Tally(m, rs, needPoints), t)
         == Lookup(m, t) + (if t == "" then 0 else TeamPoints(rs, t))
    decreases |rs|
  {
    if rs != [] {
      var init, last := rs[..|rs| - 1], rs[|rs| - 1];
      assert rs == init + [last];
      TallyLookup(m, init, needPoints, t);
      TeamPointsAppend(init, [last], t);
      assert TeamPoints([last], t) == (if last.teamId == t then last.points else 0);
    }
  }

  /** The table's keys: the initial keys and the teamIds of the results that pass the guard. */
  lemma {:induction false} TallyKeys(m: Scores, rs: seq<Result>, needPoints: bool, t: string)
    ensures t in Tally(m, rs, needPoints)
        <==> t in m || exists i :: 0 <= i < |rs| && Counted(rs[i], needPoints) && rs[i].teamId == t
    decreases |rs|
  {
    if rs != [] {
      var init, last := rs[..|rs| - 1], rs[|rs| - 1];
      TallyKeys(m, init, needPoints, t);
      if exists i :: 0 <= i < |rs| && Counted(rs[i], needPoints) && rs[i].teamId == t {
        var i :| 0 <= i < |rs| && Counted(rs[i], needPoints) && rs[i].teamId == t;
        if i < |rs| - 1 {
          assert init[i] == rs[i];
        }
      }
      if exists i :: 0 <= i < |init| && Counted(init[i], needPoints) && init[i].teamId == t {
        var i :| 0 <= i < |init| && Counted(init[i], needPoints) && init[i].teamId == t;
        assert rs[i] == init[i];
      }
    }
  }

  /** The table does not depend on the order of the results. */
  lemma TallyPermutation(m: Scores, a: seq<Result>, b: seq<Result>, needPoints: bool)
    requires multiset(a) == multiset(b)
    ensures Tally(m, a, needPoints) == Tally(m, b, needPoints)
  {
    var ta, tb := Tally(m, a, needPoints), Tally(m, b, needPoints);
    forall t ensures t in ta <==> t in tb {
      TallyKeys(m, a, needPoints, t);
      TallyKeys(m, b, needPoints, t);
      if exists i :: 0 <= i < |a| && Counted(a[i], needPoints) && a[i].teamId == t {
        SameWitness(a, b, needPoints, t);
      }
      if exists i :: 0 <= i < |b| && Counted(b[i], needPoints) && b[i].teamId == t {
        SameWitness(b, a, needPoints, t);
      }
    }
    forall t | t in ta ensures ta[t] == tb[t] {
      TallyLookup(m, a, needPoints, t);
      TallyLookup(m, b, needPoints, t);
      TeamPointsPermutation(a, b, t);
    }
  }

  lemma SameWitness(a: seq<Result>, b: seq<Result>, needPoints: bool, t: string)
    requires multiset(a) == multiset(b)
    requires exists i :: 0 <= i < |a| && Counted(a[i], needPoints) && a[i].teamId == t
    ensures exists j :: 0 <= j < |b| && Counted(b[j], needPoints) && b[j].teamId == t
  {
    var i :| 0 <= i < |a| && Counted(a[i], needPoints) && a[i].teamId == t;
    assert a[i] in multiset(b);
    var j :| 0 <= j < |b| && b[j] == a[i];
  }

  /** The sum of all values of a table (`Object.values(m).reduce((a, b) => a + b, 0)`). */
  ghost function MapSum(m: Scores): nat
    decreases |m|
  {
    if m == map[] then 0
    else
      var k :| k in m;
      m[k] + MapSum(m - {k})
  }

  /** The sum does not depend on which key is taken out first. */
  lemma {:induction false} MapSumRemove(m: Scores, k: string)
    requires k in m
    ensures MapSum(m) == m[k] + MapSum(m - {k})
    decreases |m|
  {
    var k0 :| k0 in m && MapSum(m) == m[k0] + MapSum(m - {k0});
    if k0 != k {
      assert |m - {k0}| < |m| by {
        assert (m - {k0}).Keys == m.Keys - {k0};
      }
      assert |m - {k}| < |m| by {
        assert (m - {k}).Keys == m.Keys - {k};
      }
      MapSumRemove(m - {k0}, k);
      MapSumRemove(m - {k}, k0);
      assert m - {k0} - {k} == m - {k} - {k0};
    }
  }

  /** Writing v at k changes the sum by v minus what k held. */
  lemma MapSumUpdate(m: Scores, k: string, v: nat)
    ensures MapSum(m[k := v]) + Lookup(m, k) == MapSum(m) + v
  {
    MapSumRemove(m[k := v], k);
    assert m[k := v] - {k} == m - {k};
    if k in m {
      MapSumRemove(m, k);
    } else {
      assert m - {k} == m;
    }
  }

  /** A single entry never exceeds the sum. */
  lemma MapSumBound(m: Scores, k: string)
    requires k in m
    ensures m[k] <= MapSum(m)
  {
    MapSumRemove(m, k);
  }

  /** A table of zeros sums to zero. */
  lemma {:induction false} MapSumZero(m: Scores)
    requires forall k :: k in m ==> m[k] == 0
    ensures MapSum(m) == 0
    decreases |m|
  {
    if m != map[] {
      var k :| k in m;
      MapSumRemove(m, k);
      assert |m - {k}| < |m| by {
        assert (m - {k}).Keys == m.Keys - {k};
      }
      MapSumZero(m - {k});
    }
  }

  /** The tally adds exactly the points of the results carrying a teamId to the sum. */
  lemma {:induction false} TallySum(m: Scores, rs: seq<Result>, needPoints: bool)
    ensures MapSum(Tally(m, rs, needPoints)) == MapSum(m) + CreditedPoints(rs)
    decreases |rs|
  {
    if rs != [] {
      var init, last := rs[..|rs| - 1], rs[|rs| - 1];
      assert rs == init + [last];
      TallySum(m, init, needPoints);
      CreditedPointsAppend(init, [last]);
      assert CreditedPoints([last]) == (if last.teamId != "" then last.points else 0);
      var before := Tally(m, init, needPoints);
      if Counted(last, needPoints) {
        MapSumUpdate(before, last.teamId, Lookup(before, last.teamId) + last.points);
      }
    }
  }
}
