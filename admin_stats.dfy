/**
 * The statistics panel of the admin page: the number of results, the
 * points of the first two teams and the number of distinct programs.
 */
module AdminStats {
  import opened Entities
  import opened Scoring

  datatype Stats = Stats(totalResults: nat, team1Points: nat, team2Points: nat, programsCovered: nat)

  /**
   * The `teamScores` loop: every result with a teamId credits its points,
   * whatever they are, to a table that starts empty.
   */
  method TeamScoreTable(results: seq<Result>) returns (teamScores: Scores)
    ensures teamScores == Tally(map[], results, false)
    ensures forall t :: t != "" ==> Lookup(teamScores, t) == TeamPoints(results, t)
    ensures forall t :: t in teamScores <==> t != "" && exists i :: 0 <= i < |results| && results[i].teamId == t
  {
    teamScores := map[];
    for i := 0 to |results|
      invariant teamScores == Tally(map[], results[..i], false)
    {
      assert results[..i + 1][..i] == results[..i];
      teamScores := Credit(teamScores, results[i], false);
    }
    assert results[..|results|] == results;
    forall t | t != "" ensures Lookup(teamScores, t) == TeamPoints(results, t) {
      TallyLookup(map[], results, false, t);
    }
    forall t ensures t in teamScores <==> t != "" && exists i :: 0 <= i < |results| && results[i].teamId == t {
      TallyKeys(map[], results, false, t);
    }
  }

  /** The admin table agrees with the store's, which also skips zero points, on every team. */
  lemma {:induction false} AdminTableAgreesWithStore(initial: Scores, results: seq<Result>, t: string)
    requires t != ""
    ensures Lookup(Tally(map[], results, false), t) + Lookup(initial, t) == Lookup(Tally(initial, results, true), t)
  {
    TallyLookup(map[], results, false, t);
    TallyLookup(initial, results, true, t);
  }

  /** The team of the k-th stat: `teams[k]`, or `'team1'`/`'team2'` when there are too few teams. */
  function StatTeamId(teams: seq<Team>, k: nat): (id: string)
    requires k < 2
    ensures k < |teams| ==> id == teams[k].id
    ensures |teams| <= k ==> id == (if k == 0 then "team1" else "team2")
  {
    if k < |teams| then teams[k].id else if k == 0 then "team1" else "team2"
  }

  /** `new Set(results.map((r) => r.programId))` */
  function ProgramIds(rs: seq<Result>): set<string> {
    set i | 0 <= i < |rs| :: rs[i].programId
  }

  /** No program appears in two results. */
  predicate DistinctPrograms(rs: seq<Result>) {
    forall i, j :: 0 <= i < j < |rs| ==> rs[i].programId != rs[j].programId
  }

  lemma ProgramIdsCons(rs: seq<Result>)
    requires rs != []
    ensures ProgramIds(rs) == {rs[0].programId} + ProgramIds(rs[1..])
  {
    forall p ensures p in ProgramIds(rs) <==> p in {rs[0].programId} + ProgramIds(rs[1..]) {
      if p in ProgramIds(rs) {
        var i :| 0 <= i < |rs| && rs[i].programId == p;
        if i > 0 {
          assert rs[1..][i - 1] == rs[i];
        }
      }
      if p in ProgramIds(rs[1..]) {
        var i :| 0 <= i < |rs| - 1 && rs[1..][i].programId == p;
        assert rs[i + 1] == rs[1..][i];
      }
    }
  }

  /** There are no more programs covered than results. */
  lemma {:induction false} ProgramsCoveredBound(rs: seq<Result>)
    ensures |ProgramIds(rs)| <= |rs|
  {
    if rs != [] {
      ProgramIdsCons(rs);
      ProgramsCoveredBound(rs[1..]);
    }
  }

  /** As many programs are covered as there are results exactly when no program repeats. */
  lemma {:induction false} ProgramsCoveredExact(rs: seq<Result>)
    ensures |ProgramIds(rs)| == |rs| <==> DistinctPrograms(rs)
  {
    if rs != [] {
      var x, tail := rs[0].programId, rs[1..];
      ProgramIdsCons(rs);
      ProgramsCoveredExact(tail);
      ProgramsCoveredBound(tail);
      if DistinctPrograms(rs) {
        assert DistinctPrograms(tail) by {
          forall i, j | 0 <= i < j < |tail| ensures tail[i].programId != tail[j].programId {
            assert tail[i] == rs[i + 1] && tail[j] == rs[j + 1];
          }
        }
        assert x !in ProgramIds(tail) by {
          forall i | 0 <= i < |tail| ensures tail[i].programId != x {
            assert tail[i] == rs[i + 1];
          }
        }
      } else {
        var i, j :| 0 <= i < j < |rs| && rs[i].programId == rs[j].programId;
        if i == 0 {
          assert tail[j - 1] == rs[j];
          assert x in ProgramIds(tail);
        } else {
          assert tail[i - 1] == rs[i] && tail[j - 1] == rs[j];
          assert !DistinctPrograms(tail);
        }
      }
    }
  }

  /** The stats `useEffect`. */
  method ComputeStats(results: seq<Result>, teams: seq<Team>) returns (s: Stats)
    ensures s.totalResults == |results|
    ensures s.team1Points == (if StatTeamId(teams, 0) == "" then 0 else TeamPoints(results, StatTeamId(teams, 0)))
    ensures s.team2Points == (if StatTeamId(teams, 1) == "" then 0 else TeamPoints(results, StatTeamId(teams, 1)))
    ensures s.programsCovered == |ProgramIds(results)| <= s.totalResults
    ensures s.programsCovered == s.totalResults <==> DistinctPrograms(results)
  {
    var teamScores := TeamScoreTable(results);
    var team1, team2 := StatTeamId(teams, 0), StatTeamId(teams, 1);
    var programsCovered := |ProgramIds(results)|;
    ProgramsCoveredBound(results);
    ProgramsCoveredExact(results);
    s := Stats(|results|, Lookup(teamScores, team1), Lookup(teamScores, team2), programsCovered);
  }
}
