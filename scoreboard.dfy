/**
 * The live scoreboard: a score per team, the total, the leader and each
 * team's share of the total.
 */
module Scoreboard {
  import opened Common
  import opened Entities
  import opened Scoring

  /** The ids of the given teams. */
  function TeamIds(teams: seq<Team>): set<string> {
    set j | 0 <= j < |teams| :: teams[j].id
  }

  /** The table after `teams.forEach(t => scores[t.id] = 0)`. */
  function ZeroScores(teams: seq<Team>): Scores {
    map id | id in TeamIds(teams) :: 0
  }

  /** The two `forEach` loops that fill `scores`. */
  method ComputeScores(teams: seq<Team>, results: seq<Result>) returns (scores: Scores)
    ensures scores == Tally(ZeroScores(teams), results, true)
    ensures forall j :: 0 <= j < |teams| ==> teams[j].id in scores
    ensures forall k :: k in scores ==> scores[k] == if k == "" then 0 else TeamPoints(results, k)
    ensures forall k :: k in scores <==>
      k in TeamIds(teams) || exists i :: 0 <= i < |results| && Counted(results[i], true) && results[i].teamId == k
  {
    scores := map[];
    for i := 0 to |teams|
      invariant scores == ZeroScores(teams[..i])
    {
      assert TeamIds(teams[..i + 1]) == TeamIds(teams[..i]) + {teams[i].id} by {
        assert forall j :: 0 <= j < i ==> teams[..i + 1][j] == teams[..i][j];
      }
      scores := scores[teams[i].id := 0];
    }
    assert teams[..|teams|] == teams;
    ghost var zero := scores;
    for i := 0 to |results|
      invariant scores == Tally(zero, results[..i], true)
    {
      var r := results[i];
      assert results[..i + 1][..i] == results[..i];
      if r.teamId != "" && r.points != 0 {
        scores := scores[r.teamId := (if r.teamId in scores then scores[r.teamId] else 0) + r.points];
      }
    }
    assert results[..|results|] == results;
    forall k ensures k in scores <==>
      k in TeamIds(teams) || exists i :: 0 <= i < |results| && Counted(results[i], true) && results[i].teamId == k
    {
      TallyKeys(zero, results, true, k);
    }
    forall k | k in scores ensures scores[k] == if k == "" then 0 else TeamPoints(results, k) {
      TallyLookup(zero, results, true, k);
    }
  }

  /** `Object.values(scores).reduce((a, b) => a + b, 0)` */
  method TotalPoints(scores: Scores) returns (total: nat)
    ensures total == MapSum(scores)
  {
    total := 0;
    var rest := scores;
    while rest != map[]
      invariant total + MapSum(rest) == MapSum(scores)
      decreases |rest|
    {
      var k :| k in rest;
      MapSumRemove(rest, k);
      assert (rest - {k}).Keys == rest.Keys - {k};
      total := total + rest[k];
      rest := rest - {k};
    }
  }

  /** The total counts every credited result, whether or not its team is listed. */
  lemma TotalIsCreditedPoints(teams: seq<Team>, results: seq<Result>)
    ensures MapSum(Tally(ZeroScores(teams), results, true)) == CreditedPoints(results)
  {
    MapSumZero(ZeroScores(teams));
    TallySum(ZeroScores(teams), results, true);
  }

  /** The score of team j in the table (`scores[t.id]`). */
  function ScoreAt(teams: seq<Team>, scores: Scores, j: nat): nat
    requires j < |teams| && teams[j].id in scores
  {
    scores[teams[j].id]
  }

  /** Team j has the greatest score and no earlier team reaches it. */
  ghost predicate FirstMaximum(teams: seq<Team>, scores: Scores, j: nat)
    requires forall i :: 0 <= i < |teams| ==> teams[i].id in scores
  {
    && j < |teams|
    && (forall i :: 0 <= i < |teams| ==> ScoreAt(teams, scores, i) <= ScoreAt(teams, scores, j))
    && (forall i :: 0 <= i < j ==> ScoreAt(teams, scores, i) < ScoreAt(teams, scores, j))
  }

  /**
   * The leader loop: a strictly greater score replaces the leader, so a tie
   * goes to the earliest team; no leader when the total or the maximum is 0.
   * The leader is given as its index in `teams`.
   */
  method FindLeader(teams: seq<Team>, scores: Scores, total: nat) returns (leader: Option<nat>)
    requires forall i :: 0 <= i < |teams| ==> teams[i].id in scores
    ensures leader.Some? ==> FirstMaximum(teams, scores, leader.value)
    ensures leader.None? <==>
      |teams| == 0 || total == 0 || forall i :: 0 <= i < |teams| ==> ScoreAt(teams, scores, i) == 0
  {
    leader := None;
    var maxScore: int := -1;
    for i := 0 to |teams|
      invariant i == 0 <==> leader.None?
      invariant leader.None? ==> maxScore == -1
      invariant leader.Some? ==> leader.value < i && maxScore == ScoreAt(teams, scores, leader.value)
      invariant forall j :: 0 <= j < i ==> ScoreAt(teams, scores, j) <= maxScore
      invariant leader.Some? ==> forall j :: 0 <= j < leader.value ==> ScoreAt(teams, scores, j) < maxScore
    {
      if scores[teams[i].id] > maxScore {
        maxScore := scores[teams[i].id];
        leader := Some(i);
      }
    }
    if total == 0 || maxScore == 0 {
      leader := None;
    }
  }

  /** Whether team j wears the crown: `leader && leader.id === team.id`. */
  predicate IsLeading(teams: seq<Team>, leader: Option<nat>, j: nat)
    requires j < |teams|
  {
    leader.Some? && leader.value < |teams| && teams[leader.value].id == teams[j].id
  }

  /** With unique team ids, exactly the leader is leading. */
  lemma ExactlyOneLeading(teams: seq<Team>, leader: Option<nat>, j: nat)
    requires UniqueTeamIds(teams) && leader.Some? && leader.value < |teams| && j < |teams|
    ensures IsLeading(teams, leader, j) <==> j == leader.value
  {
  }

  /** A team's share of the total, in percent (`(teamScore / totalPoints) * 100`, or 0). */
  function Percentage(teamScore: nat, total: nat): (p: real)
    ensures 0.0 <= p
    ensures total == 0 ==> p == 0.0
    ensures teamScore <= total ==> p <= 100.0
  {
    if total > 0 then
      var share := teamScore as real / total as real;
      assert share * total as real == teamScore as real;
      (share * 100.0)
    else 0.0
  }

  /** Everything the scoreboard shows. */
  datatype Board = Board(scores: Scores, totalPoints: nat, leader: Option<nat>)

  /** The displayed score of team j: `scores[team.id] || 0`. */
  function TeamScore(b: Board, teams: seq<Team>, j: nat): nat
    requires j < |teams|
  {
    Lookup(b.scores, teams[j].id)
  }

  /** The whole computation of the component, from the teams and the results. */
  method ComputeBoard(teams: seq<Team>, results: seq<Result>) returns (b: Board)
    ensures b.scores == Tally(ZeroScores(teams), results, true)
    ensures b.totalPoints == CreditedPoints(results)
    ensures forall j :: 0 <= j < |teams| ==>
      TeamScore(b, teams, j) == (if teams[j].id == "" then 0 else TeamPoints(results, teams[j].id))
    ensures forall j :: 0 <= j < |teams| ==> TeamScore(b, teams, j) <= b.totalPoints
    ensures b.leader.Some? ==> b.leader.value < |teams|
    ensures b.leader.Some? ==> forall j :: 0 <= j < |teams| ==>
      TeamScore(b, teams, j) <= TeamScore(b, teams, b.leader.value)
    ensures b.leader.Some? ==> forall j :: 0 <= j < b.leader.value ==>
      TeamScore(b, teams, j) < TeamScore(b, teams, b.leader.value)
    ensures b.leader.None? <==>
      |teams| == 0 || b.totalPoints == 0 || forall j :: 0 <= j < |teams| ==> TeamScore(b, teams, j) == 0
  {
    var scores := ComputeScores(teams, results);
    var total := TotalPoints(scores);
    TotalIsCreditedPoints(teams, results);
    forall j | 0 <= j < |teams| ensures scores[teams[j].id] <= total {
      MapSumBound(scores, teams[j].id);
    }
    var leader := FindLeader(teams, scores, total);
    b := Board(scores, total, leader);
    assert forall j :: 0 <= j < |teams| ==> TeamScore(b, teams, j) == ScoreAt(teams, scores, j);
  }
}
