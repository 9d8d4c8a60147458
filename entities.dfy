/**
 * The records the application stores and displays. A field a JavaScript
 * record leaves out (or sets to a falsy value) is the blank value here:
 * "" for strings, 0 for points, None for the edit instant.
 */
module Entities {
  import opened Common
  import Seqs

  /** A published result; `timestamp` and `editedAt` are instants in milliseconds. */
  datatype Result = Result(
    id: string,
    programId: string,
    participantId: string,
    teamId: string,
    points: nat,
    grade: string,
    place: string,
    timestamp: int,
    editedAt: Option<int>)

  /**
   * The object spread over a result by an edit: a field is Some when the
   * patch carries it and None when it is absent from the patch.
   */
  datatype ResultPatch = ResultPatch(
    id: Option<string>,
    programId: Option<string>,
    participantId: Option<string>,
    teamId: Option<string>,
    points: Option<nat>,
    grade: Option<string>,
    place: Option<string>,
    timestamp: Option<int>)

  datatype Program = Program(id: string, name: string, category: string, maxPoints: nat)

  datatype Team = Team(id: string, name: string, color: string, gradient: string)

  datatype Participant = Participant(id: string, name: string, teamId: string, category: string)

  /** `participants.find((p) => p.id === id)` */
  function FindParticipant(ps: seq<Participant>, id: string): (r: Option<Participant>)
    ensures r.Some? ==> r.value in ps && r.value.id == id
    ensures r.Some? ==> exists k :: 0 <= k < |ps| && ps[k] == r.value && forall j :: 0 <= j < k ==> ps[j].id != id
    ensures r.None? <==> forall j :: 0 <= j < |ps| ==> ps[j].id != id
  {
    match Seqs.FindIndex(ps, (p: Participant) => p.id == id)
    case Some(k) => Some(ps[k])
    case None => None
  }

  /** `programs.find((p) => p.id === id)` */
  function FindProgram(ps: seq<Program>, id: string): (r: Option<Program>)
    ensures r.Some? ==> r.value in ps && r.value.id == id
    ensures r.Some? ==> exists k :: 0 <= k < |ps| && ps[k] == r.value && forall j :: 0 <= j < k ==> ps[j].id != id
    ensures r.None? <==> forall j :: 0 <= j < |ps| ==> ps[j].id != id
  {
    match Seqs.FindIndex(ps, (p: Program) => p.id == id)
    case Some(k) => Some(ps[k])
    case None => None
  }

  /** `teams.find((t) => t.id === id)` */
  function FindTeam(ts: seq<Team>, id: string): (r: Option<Team>)
    ensures r.Some? ==> r.value in ts && r.value.id == id
    ensures r.Some? ==> exists k :: 0 <= k < |ts| && ts[k] == r.value && forall j :: 0 <= j < k ==> ts[j].id != id
    ensures r.None? <==> forall j :: 0 <= j < |ts| ==> ts[j].id != id
  {
    match Seqs.FindIndex(ts, (t: Team) => t.id == id)
    case Some(k) => Some(ts[k])
    case None => None
  }

  /** The grades a result can carry, best first. */
  const Grades: seq<string> := ["A+", "A", "B+", "B", "C", "D", "E"]

  /** No two results share an id (the store relies on it but does not enforce it). */
  predicate UniqueIds(rs: seq<Result>) {
    forall i, j :: 0 <= i < |rs| && 0 <= j < |rs| && i != j ==> rs[i].id != rs[j].id
  }

  /** No two teams share an id. */
  predicate UniqueTeamIds(ts: seq<Team>) {
    forall i, j :: 0 <= i < |ts| && 0 <= j < |ts| && i != j ==> ts[i].id != ts[j].id
  }
}
