/**
 * The participants section of the admin page: the search filter over the
 * participant list, the edit form's reset and edit actions, and which store
 * call a submit makes.
 */
module ParticipantAdmin {
  import opened Common
  import opened Entities
  import opened Text
  import Seqs

  /** The lowercased name contains the lowercased term. */
  predicate NameMatches(p: Participant, term: string) {
    Contains(Lower(p.name), Lower(term))
  }

  /** `teams.find(t => t.id === p.teamId)?.name...includes(...)`: false when no team has that id. */
  predicate TeamMatches(p: Participant, teams: seq<Team>, term: string) {
    match FindTeam(teams, p.teamId)
    case Some(t) => Contains(Lower(t.name), Lower(term))
    case None => false
  }

  predicate ParticipantMatches(p: Participant, teams: seq<Team>, term: string) {
    NameMatches(p, term) || TeamMatches(p, teams, term)
  }

  /** `filteredParticipants` */
  function FilteredParticipants(participants: seq<Participant>, teams: seq<Team>, term: string): seq<Participant> {
    Seqs.Filter(participants, (p: Participant) => ParticipantMatches(p, teams, term))
  }

  /** The list shown keeps the participants' order and drops some of them. */
  lemma FilteredIsSubsequence(participants: seq<Participant>, teams: seq<Team>, term: string)
    ensures Seqs.Subsequence(FilteredParticipants(participants, teams, term), participants)
    ensures multiset(FilteredParticipants(participants, teams, term)) <= multiset(participants)
  {
    Seqs.FilterIsSubsequence(participants, (p: Participant) => ParticipantMatches(p, teams, term));
    Seqs.FilterSubMultiset(participants, (p: Participant) => ParticipantMatches(p, teams, term));
  }

  /** A participant is listed, as often as it is stored, exactly when it matches. */
  lemma FilteredMeaning(participants: seq<Participant>, teams: seq<Team>, term: string, x: Participant)
    ensures x in FilteredParticipants(participants, teams, term)
        <==> x in participants && (NameMatches(x, term) || TeamMatches(x, teams, term))
    ensures multiset(FilteredParticipants(participants, teams, term))[x]
         == if ParticipantMatches(x, teams, term) then multiset(participants)[x] else 0
  {
    Seqs.FilterCount(participants, (p: Participant) => ParticipantMatches(p, teams, term), x);
  }

  /** An empty search lists every participant. */
  lemma {:induction false} EmptyTermKeepsAll(participants: seq<Participant>, teams: seq<Team>)
    ensures FilteredParticipants(participants, teams, "") == participants
  {
    forall i | 0 <= i < |participants| ensures ParticipantMatches(participants[i], teams, "") {
      ContainsEmpty(Lower(participants[i].name));
    }
    Seqs.FilterKeepsAll(participants, (p: Participant) => ParticipantMatches(p, teams, ""));
  }

  /** A participant whose team is unknown is listed only on a name match. */
  lemma UnknownTeamNameOnly(participants: seq<Participant>, teams: seq<Team>, term: string, x: Participant)
    requires forall j :: 0 <= j < |teams| ==> teams[j].id != x.teamId
    ensures x in FilteredParticipants(participants, teams, term) <==> x in participants && NameMatches(x, term)
  {
    assert FindTeam(teams, x.teamId).None?;
  }

  /** A team-name match lists every member of that team, whatever their name. */
  lemma TeamNameListsMembers(participants: seq<Participant>, teams: seq<Team>, term: string, t: Team, x: Participant)
    requires UniqueTeamIds(teams)
    requires t in teams && Contains(Lower(t.name), Lower(term))
    requires x in participants && x.teamId == t.id
    ensures x in FilteredParticipants(participants, teams, term)
  {
    var found := FindTeam(teams, x.teamId);
    assert found.Some?;
    var i, j :| 0 <= i < |teams| && 0 <= j < |teams| && teams[i] == t && teams[j] == found.value;
  }

  /** The edit form. */
  datatype ParticipantForm = ParticipantForm(name: string, teamId: string, category: string)

  const BlankForm: ParticipantForm := ParticipantForm("", "", "JUNIOR")

  /** The component's state. */
  datatype ManagerState = ManagerState(
    isEditing: bool,
    current: Option<Participant>,
    form: ParticipantForm,
    searchTerm: string)

  /** `resetForm`: a blank form, no participant selected, out of edit mode. */
  function ResetForm(s: ManagerState): (r: ManagerState)
    ensures r.form == BlankForm && r.current.None? && !r.isEditing
    ensures r.searchTerm == s.searchTerm
  {
    ManagerState(false, None, BlankForm, s.searchTerm)
  }

  /** `handleEdit`: the participant's fields in the form, the participant selected, in edit mode. */
  function HandleEdit(s: ManagerState, p: Participant): (r: ManagerState)
    ensures r.form == ParticipantForm(p.name, p.teamId, p.category)
    ensures r.current == Some(p) && r.isEditing
    ensures r.searchTerm == s.searchTerm
  {
    ManagerState(true, Some(p), ParticipantForm(p.name, p.teamId, p.category), s.searchTerm)
  }

  /** The store call a submit makes. */
  datatype ParticipantCall = AddParticipant(form: ParticipantForm) | UpdateParticipant(id: string, form: ParticipantForm)

  /** `handleSubmit`: update the selected participant, or add a new one. */
  function SubmitCall(s: ManagerState): (c: ParticipantCall)
    ensures c.form == s.form
    ensures c.UpdateParticipant? <==> s.current.Some?
    ensures c.UpdateParticipant? ==> c.id == s.current.value.id
  {
    match s.current
    case Some(p) => UpdateParticipant(p.id, s.form)
    case None => AddParticipant(s.form)
  }

  /** The state after the call: reset on success; on failure the form stays as it was. */
  function AfterSubmit(s: ManagerState, succeeded: bool): (r: ManagerState)
    ensures succeeded ==> r == ResetForm(s)
    ensures !succeeded ==> r == s
  {
    if succeeded then ResetForm(s) else s
  }

  /** Editing a participant and saving it unchanged updates that participant with its own fields. */
  lemma EditThenSubmit(s: ManagerState, p: Participant)
    ensures SubmitCall(HandleEdit(s, p)) == UpdateParticipant(p.id, ParticipantForm(p.name, p.teamId, p.category))
  {
  }

  /** After a successful save, the next save adds a new participant from a blank form. */
  lemma SubmitAfterSuccessAdds(s: ManagerState)
    ensures SubmitCall(AfterSubmit(s, true)) == AddParticipant(BlankForm)
    ensures ResetForm(ResetForm(s)) == ResetForm(s)
  {
  }
}
