/**
 * The form that publishes or edits a result: validation with one error
 * message per field, the record it submits, the participant-to-team
 * auto-fill, field edits and the pre-fill from the result being edited.
 */
module PublishForm {
  import opened Common
  import opened Entities
  import Store

  /**
   * The points control. Typed is what the number input yields (a text that
   * is truthy even for "0"); Loaded is the number copied from the result
   * being edited (falsy when 0); Blank is the empty input.
   */
  datatype Points = Blank | Typed(value: int) | Loaded(amount: nat)

  datatype FormData = FormData(
    programId: string,
    participantId: string,
    teamId: string,
    points: Points,
    grade: string,
    place: string)

  /** The form's initial state. */
  const EmptyForm: FormData := FormData("", "", "", Blank, "", "")

  datatype Field = ProgramField | ParticipantField | TeamField | PointsField | GradeField | PlaceField

  /** The `errors` object: a message per field. */
  type Errors = map<Field, string>

  const ProgramMissing: string := "Please select a program"
  const ParticipantMissing: string := "Please select a participant"
  const PointsMissingMessage: string := "Please enter points"
  const PointsRange: string := "Points must be between 1 and 1000"
  const GradeMissing: string := "Please select a grade"
  const PlaceMissing: string := "Please select a position"

  /** `!formData.points` */
  predicate PointsMissing(p: Points) {
    p.Blank? || (p.Loaded? && p.amount == 0)
  }

  /** The number the control holds (`parseInt(formData.points, 10)`). */
  function PointsNumber(p: Points): int
    requires !p.Blank?
  {
    if p.Typed? then p.value else p.amount
  }

  /** `formData.points < 1 || formData.points > 1000` */
  predicate PointsOutOfRange(p: Points)
    requires !p.Blank?
  {
    PointsNumber(p) < 1 || PointsNumber(p) > 1000
  }

  /** Reference definition of a complete form. The team is not checked. */
  predicate IsComplete(form: FormData) {
    && form.programId != ""
    && form.participantId != ""
    && form.grade != ""
    && form.place != ""
    && !PointsMissing(form.points)
    && 1 <= PointsNumber(form.points) <= 1000
  }

  /** `validateForm`: collect one message per invalid field; valid when there are none. */
  method ValidateForm(form: FormData) returns (valid: bool, errors: Errors)
    ensures valid <==> IsComplete(form)
    ensures valid <==> errors == map[]
    ensures TeamField !in errors
    ensures ProgramField in errors <==> form.programId == ""
    ensures ParticipantField in errors <==> form.participantId == ""
    ensures GradeField in errors <==> form.grade == ""
    ensures PlaceField in errors <==> form.place == ""
    ensures PointsField in errors <==> PointsMissing(form.points) || PointsOutOfRange(form.points)
    ensures ProgramField in errors ==> errors[ProgramField] == ProgramMissing
    ensures ParticipantField in errors ==> errors[ParticipantField] == ParticipantMissing
    ensures GradeField in errors ==> errors[GradeField] == GradeMissing
    ensures PlaceField in errors ==> errors[PlaceField] == PlaceMissing
    ensures PointsMissing(form.points) ==> errors[PointsField] == PointsMissingMessage
    ensures !PointsMissing(form.points) && PointsOutOfRange(form.points) ==> errors[PointsField] == PointsRange
  {
    var newErrors: Errors := map[];
    if form.programId == "" {
      newErrors := newErrors[ProgramField := ProgramMissing];
    }
    if form.participantId == "" {
      newErrors := newErrors[ParticipantField := ParticipantMissing];
    }
    if PointsMissing(form.points) {
      newErrors := newErrors[PointsField := PointsMissingMessage];
    } else if PointsOutOfRange(form.points) {
      newErrors := newErrors[PointsField := PointsRange];
    }
    if form.grade == "" {
      newErrors := newErrors[GradeField := GradeMissing];
    }
    if form.place == "" {
      newErrors := newErrors[PlaceField := PlaceMissing];
    }
    errors := newErrors;
    valid := |errors.Keys| == 0;
  }

  /** What submitting hands to the store. */
  datatype Submission = NoSubmission | AddCall(draft: Result) | EditCall(id: string, patch: ResultPatch)

  /** `{ ...formData, points: parseInt(formData.points, 10) }` as a new record; the store adds id and timestamp. */
  function Draft(form: FormData): Result
    requires IsComplete(form)
  {
    Result("", form.programId, form.participantId, form.teamId, PointsNumber(form.points),
           form.grade, form.place, 0, None)
  }

  /** The same object, spread over the edited record. */
  function FormPatch(form: FormData): ResultPatch
    requires IsComplete(form)
  {
    ResultPatch(None, Some(form.programId), Some(form.participantId), Some(form.teamId),
                Some(PointsNumber(form.points)), Some(form.grade), Some(form.place), None)
  }

  /** `handleSubmit`: nothing for an invalid form, an edit when editing, an add otherwise. */
  method HandleSubmit(form: FormData, editing: Option<Result>) returns (s: Submission, errors: Errors)
    ensures s.NoSubmission? <==> !IsComplete(form)
    ensures s.NoSubmission? <==> errors != map[]
    ensures IsComplete(form) && editing.Some? ==> s == EditCall(editing.value.id, FormPatch(form))
    ensures IsComplete(form) && editing.None? ==> s == AddCall(Draft(form))
  {
    var valid;
    valid, errors := ValidateForm(form);
    if !valid {
      return NoSubmission, errors;
    }
    match editing
    case Some(r) =>
      s := EditCall(r.id, FormPatch(form));
    case None =>
      s := AddCall(Draft(form));
  }

  /** The record an add stores carries the form's fields, with the points as a number. */
  lemma AddedRecordCarriesForm(form: FormData, now: nat, suffix: string)
    requires IsComplete(form)
    ensures var r := Store.Stamped(Draft(form), now, suffix);
      && r.programId == form.programId && r.participantId == form.participantId
      && r.teamId == form.teamId && r.grade == form.grade && r.place == form.place
      && r.points == PointsNumber(form.points) && 1 <= r.points <= 1000
      && r.id == Store.NewId(now, suffix) && r.timestamp == now && r.editedAt.None?
  {
  }

  /** An edit replaces the six form fields and stamps the edit, keeping id and timestamp. */
  lemma EditedRecordCarriesForm(r: Result, form: FormData, now: int)
    requires IsComplete(form)
    ensures Store.Merge(r, FormPatch(form), now)
         == r.(programId := form.programId, participantId := form.participantId, teamId := form.teamId,
               points := PointsNumber(form.points), grade := form.grade, place := form.place,
               editedAt := Some(now))
  {
  }

  /** The edit pre-fill: the result's fields, with `place || ''`. */
  function Prefill(r: Result): FormData {
    FormData(r.programId, r.participantId, r.teamId, Loaded(r.points), r.grade, r.place)
  }

  /**
   * Opening a complete result for editing pre-fills the form, and the new
   * participant id then triggers the auto-fill; saving that form unchanged
   * stamps the edit and takes the team of the listed participant, if any.
   */
  lemma PrefillRoundTrip(r: Result, participants: seq<Participant>, now: int)
    requires r.programId != "" && r.participantId != "" && r.grade != "" && r.place != ""
    requires 1 <= r.points <= 1000
    ensures IsComplete(AutoFillTeam(Prefill(r), participants))
    ensures Store.Merge(r, FormPatch(AutoFillTeam(Prefill(r), participants)), now)
         == match FindParticipant(participants, r.participantId)
            case Some(p) => r.(teamId := p.teamId, editedAt := Some(now))
            case None => r.(editedAt := Some(now))
  {
  }

  /** A pre-filled result with 0 points is reported as missing points, not out of range. */
  lemma PrefillZeroPointsIsMissing(r: Result)
    requires r.points == 0
    ensures PointsMissing(Prefill(r).points)
    ensures !PointsMissing(Typed(0)) && PointsOutOfRange(Typed(0))
  {
  }

  /** The auto-fill effect: a known participant's team replaces the form's team. */
  function AutoFillTeam(form: FormData, participants: seq<Participant>): (r: FormData)
    ensures r.(teamId := form.teamId) == form
    ensures form.participantId != "" && FindParticipant(participants, form.participantId).Some?
        ==> r.teamId == FindParticipant(participants, form.participantId).value.teamId
    ensures (forall j :: 0 <= j < |participants| ==> participants[j].id != form.participantId) ==> r == form
    ensures form.participantId == "" ==> r == form
  {
    if form.participantId != "" then
      match FindParticipant(participants, form.participantId)
      case Some(p) => form.(teamId := p.teamId)
      case None => form
    else form
  }

  /** Running the effect again changes nothing more. */
  lemma AutoFillIdempotent(form: FormData, participants: seq<Participant>)
    ensures AutoFillTeam(AutoFillTeam(form, participants), participants) == AutoFillTeam(form, participants)
  {
  }

  /** The value a field holds. */
  datatype FieldValue = Text(s: string) | Amount(p: Points)

  function Get(form: FormData, field: Field): FieldValue {
    match field
    case ProgramField => Text(form.programId)
    case ParticipantField => Text(form.participantId)
    case TeamField => Text(form.teamId)
    case PointsField => Amount(form.points)
    case GradeField => Text(form.grade)
    case PlaceField => Text(form.place)
  }

  /** `{ ...prev, [field]: value }`; the points control gives points, every other control text. */
  function Set(form: FormData, field: Field, v: FieldValue): (r: FormData)
    requires (field == PointsField) == v.Amount?
    ensures Get(r, field) == v
    ensures forall g :: g != field ==> Get(r, g) == Get(form, g)
  {
    match field
    case ProgramField => form.(programId := v.s)
    case ParticipantField => form.(participantId := v.s)
    case TeamField => form.(teamId := v.s)
    case PointsField => form.(points := v.p)
    case GradeField => form.(grade := v.s)
    case PlaceField => form.(place := v.s)
  }

  /** The form data and the messages shown under the fields. */
  datatype FormState = FormState(data: FormData, errors: Errors)

  /** `handleChange`: set the field, and blank its message if it had one. */
  function HandleChange(st: FormState, field: Field, v: FieldValue): (r: FormState)
    requires (field == PointsField) == v.Amount?
    ensures Get(r.data, field) == v
    ensures forall g :: g != field ==> Get(r.data, g) == Get(st.data, g)
    ensures forall g :: g != field ==> (g in r.errors <==> g in st.errors)
    ensures forall g :: g != field && g in st.errors ==> r.errors[g] == st.errors[g]
    ensures field in r.errors <==> field in st.errors
    ensures field in r.errors ==> r.errors[field] == ""
  {
    var errors := if field in st.errors && st.errors[field] != "" then st.errors[field := ""] else st.errors;
    FormState(Set(st.data, field, v), errors)
  }
}
