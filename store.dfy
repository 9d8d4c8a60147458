/**
 * The persisted results store: two fields, `results` and
 * `isAuthenticated`, replaced by each action. The clock, the random id
 * suffix, the configured admin password and `JSON.parse` are parameters.
 */
module Store {
  import opened Common
  import opened Entities
  import Seqs
  import Scoring

  /** One decimal digit. */
  function Digit(d: nat): char
    requires d < 10
  {
    ('0' as int + d) as char
  }

  /** The decimal text of a natural number, as template literals print it. */
  function Decimal(n: nat): (s: string)
    ensures 1 <= |s|
    ensures |s| == 1 <==> n < 10
    ensures forall i :: 0 <= i < |s| ==> '0' <= s[i] <= '9'
  {
    if n < 10 then [Digit(n)] else Decimal(n / 10) + [Digit(n % 10)]
  }

  /** Different numbers print differently. */
  lemma {:induction false} DecimalInjective(a: nat, b: nat)
    requires Decimal(a) == Decimal(b)
    ensures a == b
  {
    if a >= 10 && b >= 10 {
      var da, db := Decimal(a), Decimal(b);
      assert da[|da| - 1] == Digit(a % 10) && db[|db| - 1] == Digit(b % 10);
      assert da[..|da| - 1] == Decimal(a / 10) && db[..|db| - 1] == Decimal(b / 10);
      DecimalInjective(a / 10, b / 10);
    }
  }

  /** The generated id `result_${Date.now()}_${suffix}`. */
  function NewId(now: nat, suffix: string): string {
    "result_" + Decimal(now) + "_" + suffix
  }

  /** Two generations with a different instant or suffix give different ids. */
  lemma NewIdInjective(n1: nat, s1: string, n2: nat, s2: string)
    requires NewId(n1, s1) == NewId(n2, s2)
    ensures n1 == n2 && s1 == s2
  {
    var d1, d2 := Decimal(n1), Decimal(n2);
    var id := NewId(n1, s1);
    assert id == "result_" + d1 + "_" + s1;
    assert id == "result_" + d2 + "_" + s2;
    var tail := id[7..];
    assert tail == d1 + "_" + s1 == d2 + "_" + s2;
    // the '_' after the shorter number cannot face a digit of the longer one
    FirstUnderscore(d1, s1, |d2|);
    FirstUnderscore(d2, s2, |d1|);
    assert tail[|d1|] == '_' && tail[|d2|] == '_';
    assert |d1| == |d2|;
    assert d1 == id[7..7 + |d1|] == d2;
    DecimalInjective(n1, n2);
    assert s1 == id[8 + |d1|..] == s2;
  }

  /** In digits followed by "_", the first "_" is right after the digits. */
  lemma FirstUnderscore(d: string, rest: string, k: nat)
    requires forall i :: 0 <= i < |d| ==> '0' <= d[i] <= '9'
    ensures k <= |d| ==> ((d + "_" + rest)[k] == '_' <==> k == |d|)
  {
  }

  /** The record `addResult` stores: the given fields with a fresh id and timestamp. */
  function Stamped(r: Result, now: nat, suffix: string): Result {
    r.(id := NewId(now, suffix), timestamp := now)
  }

  /** `{ ...result, ...patch, editedAt: now }` */
  function Merge(r: Result, patch: ResultPatch, now: int): Result {
    Result(
      patch.id.GetOr(r.id),
      patch.programId.GetOr(r.programId),
      patch.participantId.GetOr(r.participantId),
      patch.teamId.GetOr(r.teamId),
      patch.points.GetOr(r.points),
      patch.grade.GetOr(r.grade),
      patch.place.GetOr(r.place),
      patch.timestamp.GetOr(r.timestamp),
      Some(now))
  }

  /** `results.map((r) => r.id === id ? merged : r)` */
  function Edited(rs: seq<Result>, id: string, patch: ResultPatch, now: int): seq<Result> {
    if rs == [] then []
    else [if rs[0].id == id then Merge(rs[0], patch, now) else rs[0]] + Edited(rs[1..], id, patch, now)
  }

  /** `results.filter((r) => r.id !== id)` */
  function Deleted(rs: seq<Result>, id: string): seq<Result> {
    Seqs.Filter(rs, (r: Result) => r.id != id)
  }

  /** Some record of rs has this id. */
  ghost predicate HasId(rs: seq<Result>, id: string) {
    exists i :: 0 <= i < |rs| && rs[i].id == id
  }

  /** Editing keeps length and positions; matching records are merged, the rest are unchanged. */
  lemma {:induction false} EditedAt(rs: seq<Result>, id: string, patch: ResultPatch, now: int)
    ensures |Edited(rs, id, patch, now)| == |rs|
    ensures forall i :: 0 <= i < |rs| ==>
      Edited(rs, id, patch, now)[i] == if rs[i].id == id then Merge(rs[i], patch, now) else rs[i]
  {
    if rs != [] {
      EditedAt(rs[1..], id, patch, now);
    }
  }

  /** Editing an id that no record has changes nothing. */
  lemma EditAbsentId(rs: seq<Result>, id: string, patch: ResultPatch, now: int)
    requires !HasId(rs, id)
    ensures Edited(rs, id, patch, now) == rs
  {
    EditedAt(rs, id, patch, now);
  }

  /** The merge takes each field from the patch when present and keeps the old value otherwise. */
  lemma MergeFields(r: Result, patch: ResultPatch, now: int)
    ensures Merge(r, patch, now).editedAt == Some(now)
    ensures patch.timestamp.None? ==> Merge(r, patch, now).timestamp == r.timestamp
    ensures patch.id.None? ==> Merge(r, patch, now).id == r.id
    ensures patch.points.Some? ==> Merge(r, patch, now).points == patch.points.value
    ensures patch == ResultPatch(None, None, None, None, None, None, None, None)
        ==> Merge(r, patch, now) == r.(editedAt := Some(now))
  {
  }

  /** Deleting removes exactly the records with that id and keeps every copy of the others. */
  lemma DeletedCount(rs: seq<Result>, id: string, x: Result)
    ensures multiset(Deleted(rs, id))[x] == if x.id == id then 0 else multiset(rs)[x]
  {
    Seqs.FilterCount(rs, (r: Result) => r.id != id, x);
  }

  /** Deleting keeps the remaining records in their original relative order. */
  lemma DeletedOrder(rs: seq<Result>, id: string)
    ensures Seqs.Subsequence(Deleted(rs, id), rs)
    ensures !HasId(Deleted(rs, id), id)
  {
    Seqs.FilterIsSubsequence(rs, (r: Result) => r.id != id);
    var d := Deleted(rs, id);
    assert forall i :: 0 <= i < |d| ==> d[i] in d;
  }

  /** Deleting twice is deleting once. */
  lemma DeleteIdempotent(rs: seq<Result>, id: string)
    ensures Deleted(Deleted(rs, id), id) == Deleted(rs, id)
  {
    Seqs.FilterIdempotent(rs, (r: Result) => r.id != id);
  }

  /** Deleting an id that no record has changes nothing. */
  lemma DeleteAbsentId(rs: seq<Result>, id: string)
    requires !HasId(rs, id)
    ensures Deleted(rs, id) == rs
  {
    Seqs.FilterKeepsAll(rs, (r: Result) => r.id != id);
  }

  /** Deleting the id just generated undoes the add, when that id was fresh. */
  lemma DeleteUndoesAdd(rs: seq<Result>, r: Result, now: nat, suffix: string)
    requires !HasId(rs, NewId(now, suffix))
    ensures Deleted([Stamped(r, now, suffix)] + rs, NewId(now, suffix)) == rs
  {
    var all := [Stamped(r, now, suffix)] + rs;
    assert all[1..] == rs;
    DeleteAbsentId(rs, NewId(now, suffix));
  }

  /** Adding with a fresh id keeps ids unique. */
  lemma AddKeepsUniqueIds(rs: seq<Result>, r: Result, now: nat, suffix: string)
    requires UniqueIds(rs) && !HasId(rs, NewId(now, suffix))
    ensures UniqueIds([Stamped(r, now, suffix)] + rs)
  {
    var all := [Stamped(r, now, suffix)] + rs;
    forall i, j | 0 <= i < |all| && 0 <= j < |all| && i != j ensures all[i].id != all[j].id {
      if i > 0 && j > 0 {
        assert all[i] == rs[i - 1] && all[j] == rs[j - 1];
      } else if i == 0 {
        assert all[j] == rs[j - 1];
      } else {
        assert all[i] == rs[i - 1];
      }
    }
  }

  /** An edit that does not patch the id keeps ids unique. */
  lemma EditKeepsUniqueIds(rs: seq<Result>, id: string, patch: ResultPatch, now: int)
    requires UniqueIds(rs) && patch.id.None?
    ensures UniqueIds(Edited(rs, id, patch, now))
  {
    EditedAt(rs, id, patch, now);
  }

  /** Deleting keeps ids unique. */
  lemma {:induction false} DeleteKeepsUniqueIds(rs: seq<Result>, id: string)
    requires UniqueIds(rs)
    ensures UniqueIds(Deleted(rs, id))
  {
    if rs != [] {
      assert UniqueIds(rs[1..]) by {
        forall i, j | 0 <= i < |rs| - 1 && 0 <= j < |rs| - 1 && i != j ensures rs[1..][i].id != rs[1..][j].id {
          assert rs[1..][i] == rs[i + 1] && rs[1..][j] == rs[j + 1];
        }
      }
      DeleteKeepsUniqueIds(rs[1..], id);
      var tail := Deleted(rs[1..], id);
      assert forall k :: 0 <= k < |tail| ==> tail[k] in rs[1..];
      forall k | 0 <= k < |tail| ensures tail[k].id != rs[0].id {
        var m :| 0 <= m < |rs[1..]| && rs[1..][m] == tail[k];
        assert rs[m + 1] == tail[k];
      }
    }
  }

  /** The starting table of `getTeamScores`. */
  const InitialScores: Scoring.Scores := map["team1" := 0, "team2" := 0]

  /** The password used when none is configured. */
  const DefaultAdminPassword: string := "Madin_Shuhada@admin"

  /** `import.meta.env.VITE_ADMIN_PASSWORD || 'Madin_Shuhada@admin'` */
  function AdminPassword(configured: string): (p: string)
    ensures p != ""
    ensures configured != "" ==> p == configured
    ensures configured == "" ==> p == DefaultAdminPassword
  {
    if configured != "" then configured else DefaultAdminPassword
  }

  /** What `JSON.parse` produced. */
  datatype Json = JArray(elements: seq<Result>) | JNonArray

  /** `JSON.parse`: it either throws or yields a value. */
  datatype ParseOutcome = Malformed | Parsed(value: Json)

  /** The projection `partialize` hands to the storage middleware. */
  datatype Persisted = Persisted(results: seq<Result>, isAuthenticated: bool)

  class ResultsStore {
    var results: seq<Result>
    var isAuthenticated: bool

    constructor ()
      ensures results == [] && !isAuthenticated
    {
      results := [];
      isAuthenticated := false;
    }

    /** `partialize`: exactly the two persisted fields. */
    function Persist(): (p: Persisted)
      reads this
      ensures p.results == results && p.isAuthenticated == isAuthenticated
    {
      Persisted(results, isAuthenticated)
    }

    /** `addResult`: the stamped record goes first. */
    method AddResult(r: Result, now: nat, suffix: string)
      modifies this
      ensures results == [Stamped(r, now, suffix)] + old(results)
      ensures |results| == |old(results)| + 1 && results[1..] == old(results)
      ensures results[0].id == NewId(now, suffix) && results[0].timestamp == now
      ensures isAuthenticated == old(isAuthenticated)
    {
      results := [Stamped(r, now, suffix)] + results;
    }

    /** `editResult`: merge the patch into every record with that id and stamp `editedAt`. */
    method EditResult(id: string, patch: ResultPatch, now: int)
      modifies this
      ensures results == Edited(old(results), id, patch, now)
      ensures |results| == |old(results)|
      ensures forall i :: 0 <= i < |results| ==>
        results[i] == if old(results)[i].id == id then Merge(old(results)[i], patch, now) else old(results)[i]
      ensures isAuthenticated == old(isAuthenticated)
    {
      EditedAt(results, id, patch, now);
      results := Edited(results, id, patch, now);
    }

    /** `deleteResult`: drop every record with that id. */
    method DeleteResult(id: string)
      modifies this
      ensures results == Deleted(old(results), id)
      ensures isAuthenticated == old(isAuthenticated)
    {
      results := Deleted(results, id);
    }

    /** `getTeamScores`: team1 and team2 start at 0, then each result with a team and points adds up. */
    method GetTeamScores() returns (scores: Scoring.Scores)
      ensures scores == Scoring.Tally(InitialScores, results, true)
      ensures "team1" in scores && "team2" in scores
      ensures forall t :: t != "" ==> Scoring.Lookup(scores, t) == Scoring.TeamPoints(results, t)
    {
      scores := InitialScores;
      for i := 0 to |results|
        invariant scores == Scoring.Tally(InitialScores, results[..i], true)
      {
        var r := results[i];
        assert results[..i + 1][..i] == results[..i];
        if r.teamId != "" && r.points != 0 {
          scores := scores[r.teamId := (if r.teamId in scores then scores[r.teamId] else 0) + r.points];
        }
      }
      assert results[..|results|] == results;
      Scoring.TallyKeys(InitialScores, results, true, "team1");
      Scoring.TallyKeys(InitialScores, results, true, "team2");
      forall t | t != "" ensures Scoring.Lookup(scores, t) == Scoring.TeamPoints(results, t) {
        Scoring.TallyLookup(InitialScores, results, true, t);
      }
    }

    /** `login`: succeeds exactly on the configured password, and only then sets the flag. */
    method Login(password: string, configured: string) returns (ok: bool)
      modifies this
      ensures ok == (password == AdminPassword(configured))
      ensures isAuthenticated == (ok || old(isAuthenticated))
      ensures results == old(results)
    {
      if password == AdminPassword(configured) {
        isAuthenticated := true;
        return true;
      }
      return false;
    }

    /** `logout` */
    method Logout()
      modifies this
      ensures !isAuthenticated && results == old(results)
    {
      isAuthenticated := false;
    }

    /** `importResults`: replace the results when the payload parses to an array. */
    method ImportResults(parsed: ParseOutcome) returns (ok: bool)
      modifies this
      ensures ok <==> parsed.Parsed? && parsed.value.JArray?
      ensures results == if ok then parsed.value.elements else old(results)
      ensures isAuthenticated == old(isAuthenticated)
    {
      match parsed
      case Malformed =>
        return false;
      case Parsed(value) =>
        if value.JArray? {
          results := value.elements;
          return true;
        }
        return false;
    }

    /** `clearAllResults` */
    method ClearAllResults()
      modifies this
      ensures Persist() == Persisted([], old(isAuthenticated))
    {
      results := [];
    }
  }
}
