# Fest results: store, scoreboard and admin computations in Dafny

This project models the core of a web application that publishes the results
of an arts festival. Teams collect points from programs, and participants
belong to teams. The model covers:

- the results store (`src/store/useStore.js`), whose state is the list of
  published results and the admin login flag. It appears as the class
  `Store.ResultsStore`, with the fields `results` and `isAuthenticated` and one
  method per store action.
- the live scoreboard (`TeamScoreboard.jsx`): per-team scores, the total, the
  leader and the share of each team.
- the public results list (`ResultsList.jsx`): search, category and team
  filters, the five sort orders (an in-place insertion sort over an array),
  the grade colours and the active-filter badge.
- the publish/edit form (`PublishResultForm.jsx`): validation with one message
  per field, the record handed to the store, the participant-to-team
  auto-fill, field edits and the edit pre-fill.
- the statistics of the admin page (`AdminPanel.jsx`).
- the participant search and the edit form of the participant manager
  (`admin/ParticipantManager.jsx`).

Three places in the application run the same loop,
`scores[teamId] = (scores[teamId] || 0) + points`. The loop is defined once, as
`Scoring.Tally`, and proved against an independent sum, `Scoring.TeamPoints`.
The store and the scoreboard skip results with 0 points and the admin page
does not, so `Tally` takes that guard as a flag.

The modules and their dependencies:

- `Common`: the `Option` type.
- `Text`: lowercasing, substring search and string comparison.
- `Seqs`: an order-preserving filter, the subsequence relation and a find-first operation.
- `Entities`: the records (`Result`, `Program`, `Team`, `Participant`) and lookup by id.
- `Scoring`: the shared tally.
- `Store`: the results store.
- `Scoreboard`: the live scoreboard.
- `ResultsList`: the results list.
- `PublishForm`: the publish/edit form.
- `AdminStats`: the admin statistics.
- `ParticipantAdmin`: the participant manager.

Conventions:

- A field that a JavaScript record leaves out is the blank value of its type: `""` or `0`.
- A patch (`Entities.ResultPatch`) has an `Option` per field, so that "left out of the patch" differs from "set to blank".
- Timestamps are integers: the milliseconds that `new Date(...)` yields for the stored ISO text.
- The clock, the random id suffix and the configured admin password are parameters.

Two behaviours of the scoreboard that are easy to misread:

- Ties: the leader loop uses a strict `>` over the teams in order (`src/components/TeamScoreboard.jsx:26`), so a tie for the maximum goes to the earliest team. `Scoreboard.FindLeader` does the same. The leader is null only when there are no teams, the total is 0 or the maximum is 0.
- Zero total: the share of every team is 0 when the total is 0 (`src/components/TeamScoreboard.jsx:54`), and `Scoreboard.Percentage` is 0 there too.

## Model

| member | source | states |
|---|---|---|
| Text.Lower | src/components/ResultsList.jsx:24 | lowercasing keeps the length and maps every character by itself |
| Text.LowerIdempotent | src/components/ResultsList.jsx:24 | lowercasing an already lowercased text changes nothing |
| Text.ContainsMeaning | src/components/ResultsList.jsx:29 | `includes` holds exactly when the term occurs at some position of the text |
| Text.ContainsEmpty | src/components/admin/ParticipantManager.jsx:51 | every text includes the empty term |
| Text.StrCompare | src/components/ResultsList.jsx:62 | the comparison is -1, 0 or 1, and 0 exactly when the two texts are equal |
| Text.StrCompareAntisymmetric | src/components/ResultsList.jsx:62 | swapping the operands negates the comparison |
| Text.StrCompareTransitive | src/components/ResultsList.jsx:62 | "not after" is transitive |
| Entities.FindParticipant | src/components/PublishResultForm.jsx:41 | the participant found is the first in the list with the id; nothing is found exactly when no participant has it |
| Entities.FindProgram | src/components/ResultsList.jsx:27 | the program found is the first in the list with the id; nothing is found exactly when no program has it |
| Entities.FindTeam | src/components/admin/ParticipantManager.jsx:52 | the team found is the first in the list with the id; nothing is found exactly when no team has it |
| Store.Decimal | src/store/useStore.js:17 | the printed instant is a non-empty run of digits, one digit long exactly below 10 |
| Store.DecimalInjective | src/store/useStore.js:17 | two instants that print alike are equal |
| Store.NewIdInjective | src/store/useStore.js:17 | two generated ids are equal only for the same instant and the same suffix |
| Store.EditedAt | src/store/useStore.js:26-34 | an edit keeps the length and the positions; each record with the id becomes the merge, every other record is unchanged |
| Store.EditAbsentId | src/store/useStore.js:28-31 | editing an id that no record has leaves the results as they were |
| Store.MergeFields | src/store/useStore.js:30 | the merge stamps `editedAt`; a field left out of the patch, such as `timestamp` or `id`, keeps its old value; an empty patch changes only `editedAt` |
| Store.DeletedCount | src/store/useStore.js:37-41 | a delete drops every copy of a record with the id and keeps every copy of any other record |
| Store.DeletedOrder | src/store/useStore.js:39 | the remaining records keep their relative order, and none has the id |
| Store.DeleteIdempotent | src/store/useStore.js:37-41 | deleting twice is deleting once |
| Store.DeleteAbsentId | src/store/useStore.js:39 | deleting an id that no record has leaves the results as they were |
| Store.DeleteUndoesAdd | src/store/useStore.js:14-41 | deleting the id that an add just generated gives back the results from before the add |
| Store.AddKeepsUniqueIds | src/store/useStore.js:14-23 | an add with a fresh id keeps the ids distinct |
| Store.EditKeepsUniqueIds | src/store/useStore.js:26-34 | an edit whose patch carries no id keeps the ids distinct |
| Store.DeleteKeepsUniqueIds | src/store/useStore.js:37-41 | a delete keeps the ids distinct |
| Store.AdminPassword | src/store/useStore.js:63 | the password is the configured one when there is one, and the built-in one otherwise |
| Store.ResultsStore.constructor | src/store/useStore.js:8-11 | the store starts with no results and logged out |
| Store.ResultsStore.Persist | src/store/useStore.js:110-113 | the persisted projection holds exactly `results` and `isAuthenticated` |
| Store.ResultsStore.AddResult | src/store/useStore.js:14-23 | the new record, carrying the generated id and timestamp over the given ones, goes in front, and the old results follow unchanged |
| Store.ResultsStore.EditResult | src/store/useStore.js:26-34 | the new results are the old ones with every record that has the id merged with the patch; length and other records are unchanged |
| Store.ResultsStore.DeleteResult | src/store/useStore.js:37-41 | the new results are the old ones without the records that have the id |
| Store.ResultsStore.GetTeamScores | src/store/useStore.js:44-58 | the table always has `team1` and `team2`, and each team's entry is the sum of the points of its results |
| Store.ResultsStore.Login | src/store/useStore.js:61-69 | success exactly when the password matches; success logs in, failure leaves the state unchanged |
| Store.ResultsStore.Logout | src/store/useStore.js:71-73 | the flag becomes false and the results stay |
| Store.ResultsStore.ImportResults | src/store/useStore.js:89-101 | success exactly when the payload parses to an array, which then becomes the results; otherwise the results are unchanged |
| Store.ResultsStore.ClearAllResults | src/store/useStore.js:104-106 | the results become empty and the login flag is untouched |
| Scoring.TeamPointsPermutation | src/store/useStore.js:51-55 | a team's sum does not depend on the order of the results |
| Scoring.TeamPointsNone | src/components/TeamScoreboard.jsx:11-12 | a team that no result names sums to 0 |
| Scoring.TallyLookup | src/components/TeamScoreboard.jsx:14-18 | after the loop, each team's entry is its initial score plus the points of its results; the empty team id reads as its initial score |
| Scoring.TallyKeys | src/components/TeamScoreboard.jsx:14-18 | the table's keys are the initial keys plus the team ids of the results that pass the guard |
| Scoring.TallyPermutation | src/components/TeamScoreboard.jsx:14-18 | reordering the results gives the same table |
| Scoring.TallySum | src/components/TeamScoreboard.jsx:20 | the entries of the table add up to the initial entries plus the points of every result that names a team |
| Scoreboard.ComputeScores | src/components/TeamScoreboard.jsx:11-18 | every known team has an entry; each entry is the sum of its team's points; results naming unknown teams get an entry too |
| Scoreboard.TotalPoints | src/components/TeamScoreboard.jsx:20 | the total is the sum of all entries of the table |
| Scoreboard.TotalIsCreditedPoints | src/components/TeamScoreboard.jsx:20 | that total is the points of every result that names a team |
| Scoreboard.FindLeader | src/components/TeamScoreboard.jsx:22-31 | a leader has a score at least every team's and is the first such team; there is no leader exactly when there are no teams, the total is 0 or every score is 0 |
| Scoreboard.ExactlyOneLeading | src/components/TeamScoreboard.jsx:55 | with distinct team ids, exactly the leader's card is marked as leading |
| Scoreboard.Percentage | src/components/TeamScoreboard.jsx:54 | the share is non-negative, 0 when the total is 0, and at most 100 for a score within the total |
| Scoreboard.ComputeBoard | src/components/TeamScoreboard.jsx:11-31 | the scoreboard's table, total and leader, with every team's score bounded by the total and the leader the first team with the maximum |
| ResultsList.ClearFilters | src/components/ResultsList.jsx:84-89 | after clearing, no filter is active and the badge count is 0 |
| ResultsList.ActiveCountMeaning | src/components/ResultsList.jsx:108-110 | the badge counts at most four criteria; filters are active exactly when it is positive, and it is 0 exactly for the cleared filters |
| ResultsList.GradeColor | src/components/ResultsList.jsx:71-82 | each of the seven grades has its own colour, and any other value that is not an inherited property name gets the fallback colour |
| ResultsList.GradeColorsDistinct | src/components/ResultsList.jsx:72-81 | the seven grade colours differ from each other and from the fallback |
| ResultsList.CompareAntisymmetric | src/components/ResultsList.jsx:51-66 | every comparator changes sign when its operands swap |
| ResultsList.CompareTransitive | src/components/ResultsList.jsx:51-66 | every comparator's "not after" is transitive |
| ResultsList.SortedMeaning | src/components/ResultsList.jsx:51-66 | a sorted list has non-increasing timestamps for "recent", non-decreasing for "oldest", non-increasing points for "points-high", non-decreasing for "points-low", and grades in order for "grade" |
| ResultsList.UnknownSortKeepsOrder | src/components/ResultsList.jsx:63-64 | under an unknown sort key every list is already in order |
| ResultsList.SwapDown | src/components/ResultsList.jsx:51 | one exchange of neighbours, nothing else moves |
| ResultsList.Insert | src/components/ResultsList.jsx:51-66 | one insertion step extends the sorted prefix by one, keeps the elements, and moves nothing when the element is already in place |
| ResultsList.SortInPlace | src/components/ResultsList.jsx:51-66 | the array ends sorted by the comparator, holds the same elements, and is untouched when it was already in order |
| ResultsList.SearchStageKeeps | src/components/ResultsList.jsx:23-35 | the search stage keeps exactly the results that match the lowercased query, or all of them for an empty query |
| ResultsList.CategoryStageKeeps | src/components/ResultsList.jsx:38-43 | the category stage after the search keeps exactly the results that pass both |
| ResultsList.StagesKeep | src/components/ResultsList.jsx:20-48 | the three successive filters keep exactly the results that pass all three criteria, in order |
| ResultsList.FilteredAndSorted | src/components/ResultsList.jsx:19-69 | the list shown holds exactly the kept results, sorted by the chosen order, and is the kept results themselves when they are already in order |
| ResultsList.KeptCount | src/components/ResultsList.jsx:20-48 | a kept result appears as often as in the store, a dropped one never |
| ResultsList.KeptFromResults | src/components/ResultsList.jsx:19-68 | the list holds only stored results, never more copies than stored, in the stored order |
| ResultsList.KeptMeaning | src/components/ResultsList.jsx:23-48 | every listed result matches the query in one of the four fields, has a known program of the chosen category, and has the chosen team |
| ResultsList.NoFilterKeepsAll | src/components/ResultsList.jsx:23-48 | with no search, category "all" and team "all", every result is kept |
| PublishForm.ValidateForm | src/components/PublishResultForm.jsx:48-63 | valid exactly when program, participant, grade and position are set and points are present and within 1..1000; each missing field sets exactly its own message |
| PublishForm.HandleSubmit | src/components/PublishResultForm.jsx:65-87 | an invalid form submits nothing; a valid one edits the result being edited, or adds a new record |
| PublishForm.AddedRecordCarriesForm | src/components/PublishResultForm.jsx:73-81 | the stored record carries the form's fields, with integer points within 1..1000, a fresh id and the add's timestamp |
| PublishForm.EditedRecordCarriesForm | src/components/PublishResultForm.jsx:73-79 | an edit replaces the six form fields and stamps the edit, keeping the id and the timestamp |
| PublishForm.PrefillRoundTrip | src/components/PublishResultForm.jsx:25-46 | opening a complete result for editing gives a valid form after the pre-fill and the participant auto-fill; saving it unchanged stamps the edit instant and replaces the team by the listed participant's team, if the participant is listed, and changes nothing else |
| PublishForm.PrefillZeroPointsIsMissing | src/components/PublishResultForm.jsx:53-57 | a pre-filled 0 counts as missing points, a typed 0 as out of range |
| PublishForm.AutoFillTeam | src/components/PublishResultForm.jsx:39-46 | only the team changes; a known participant's team is taken, an unknown or unset participant changes nothing |
| PublishForm.AutoFillIdempotent | src/components/PublishResultForm.jsx:39-46 | running the auto-fill again changes nothing more |
| PublishForm.Set | src/components/PublishResultForm.jsx:90 | setting a field gives it the value and leaves every other field as it was |
| PublishForm.HandleChange | src/components/PublishResultForm.jsx:89-95 | the field takes the value; its message is blanked if present; other fields and messages are untouched |
| AdminStats.TeamScoreTable | src/pages/AdminPanel.jsx:60-65 | each team's entry is the sum of its results' points, zeros included; the keys are the team ids that results carry |
| AdminStats.AdminTableAgreesWithStore | src/pages/AdminPanel.jsx:60-65 | the admin table and the store's table, which skips zero points, agree on every team |
| AdminStats.StatTeamId | src/pages/AdminPanel.jsx:68-69 | the first and second stat use the first and second team, or the ids `team1` and `team2` when there are too few teams |
| AdminStats.ProgramsCoveredBound | src/pages/AdminPanel.jsx:71 | there are no more distinct programs than results |
| AdminStats.ProgramsCoveredExact | src/pages/AdminPanel.jsx:71 | there are as many distinct programs as results exactly when no program repeats |
| AdminStats.ComputeStats | src/pages/AdminPanel.jsx:56-79 | the result count, the points of the first two teams (0 for a team without results) and the number of distinct programs |
| ParticipantAdmin.FilteredIsSubsequence | src/components/admin/ParticipantManager.jsx:50-53 | the list shown is an order-preserving selection of the participants |
| ParticipantAdmin.FilteredMeaning | src/components/admin/ParticipantManager.jsx:50-53 | a participant is listed, as often as stored, exactly when its lowercased name or its team's lowercased name contains the lowercased term |
| ParticipantAdmin.EmptyTermKeepsAll | src/components/admin/ParticipantManager.jsx:50-51 | an empty search lists every participant |
| ParticipantAdmin.UnknownTeamNameOnly | src/components/admin/ParticipantManager.jsx:52 | a participant whose team is unknown is listed only on a name match |
| ParticipantAdmin.TeamNameListsMembers | src/components/admin/ParticipantManager.jsx:52 | with distinct team ids, a term matching a team's name lists every member of that team |
| ParticipantAdmin.ResetForm | src/components/admin/ParticipantManager.jsx:18-22 | a blank form with category JUNIOR, no participant selected, out of edit mode |
| ParticipantAdmin.HandleEdit | src/components/admin/ParticipantManager.jsx:24-28 | the participant's fields fill the form, it becomes the selected one, edit mode is on |
| ParticipantAdmin.SubmitCall | src/components/admin/ParticipantManager.jsx:30-37 | an update of the selected participant with the form, or an add of the form when none is selected |
| ParticipantAdmin.AfterSubmit | src/components/admin/ParticipantManager.jsx:32-41 | the form is reset after a successful save and kept after a failed one |
| ParticipantAdmin.EditThenSubmit | src/components/admin/ParticipantManager.jsx:24-37 | editing a participant and saving updates that participant with its own fields |
| ParticipantAdmin.SubmitAfterSuccessAdds | src/components/admin/ParticipantManager.jsx:18-38 | after a successful save the next save adds from a blank form, and resetting twice is resetting once |

## Left out

- `exportResults` (`src/store/useStore.js:76-86`) is left out: it is only serialisation, Blob, URL and DOM download.
- `JSON.parse` is abstracted as a parse outcome. Elements of an imported array are taken to be well-formed `Result` records; the source does not check them either.
- The zustand `persist` middleware and the local storage are left out; only the `partialize` projection is modelled.
- `Math.random` and `Date.now` are parameters (`now`, `suffix`). The source reads the clock twice in `addResult`, once for the id and once for the timestamp. The model uses one instant for both.
- Store.ResultsStore.EditResult: one instant `now` stamps every record with the id. The source reads the clock inside the `map` callback (`src/store/useStore.js:30`), once per matching record, so several records with the same id may get slightly different `editedAt` values.
- `timestamp` and `editedAt` are kept as millisecond integers, not ISO texts, and `new Date(...)` is therefore the identity.
- The teams, programs and participants lists, and the actions that the components call but the store does not define (`seedDatabase`, `addParticipant`, `updateParticipant`, `deleteParticipant` and the team and program actions), are not part of this model. Where a computation needs those lists, they are parameters, and the participant calls are returned as values (`ParticipantAdmin.ParticipantCall`).
- Firebase (`src/lib/firebase.js`), routing, rendering, animation, `date-fns` formatting, `window.confirm`, `alert`, the file picker and the `setTimeout` delays are left out as I/O or timing.
- `toLowerCase` is modelled on ASCII letters only and `localeCompare` as code-unit order; Unicode case mapping and collation are out of scope.
- Scoreboard.Percentage: the share is an exact ratio, not the floating-point value or the `toFixed` text shown.
- AdminStats.TeamScoreTable: the model has no results without points. In the source, such a result stores `NaN` in its team's entry (`src/pages/AdminPanel.jsx:63`); the team's next result computes `(NaN || 0) + r.points`, which drops every point the team had before, and `|| 0` at lines 75-76 only turns a trailing `NaN` into 0. The source's team total is thus the sum of the team's results after its last result without points, while the model sums all of them.
- PublishForm.ValidateForm: the points control is modelled as an integer (or blank). The text-to-number coercion of `<` and the truncation of fractional or exponent input by `parseInt` are left out.
- PublishForm.HandleChange: the model clears the message against the current errors. The stale `errors` that a React closure may see between renders is left out.
- ParticipantAdmin.HandleEdit: the form keeps name, team and category. The source puts the whole participant object, including its id, into the form data, and the model does not carry the id there.
- The "Add Participant" button, which only turns edit mode on, is left out.
- ResultsList.SortInPlace: the sort is an insertion sort that never moves an element past an equal one. Its contract states only sortedness, the permutation and that an input already in order is unchanged; general stability for equal keys under a known order is not stated.
- ResultsList.FilteredAndSorted: the list's contract has the same gap as the sort's. It states that the list is the kept results, sorted, and equal to them when they are already in order. It does not state that results with equal keys under a named order (equal points under "points-high", say) keep their filtered order, as the stable `Array.prototype.sort` does (`src/components/ResultsList.jsx:51-66`).
- ResultsList.GradeColor: JavaScript objects used as maps are modelled as Dafny maps with no inherited keys. In the source, `gradeColors[grade]` (`src/components/ResultsList.jsx:72-81`) for an inherited property name such as `constructor` or `toString` yields an `Object.prototype` member rather than the fallback colour, and grades from an imported file are not checked. The same abstraction covers the three score tables (`src/store/useStore.js:53`, `src/components/TeamScoreboard.jsx:16`, `src/pages/AdminPanel.jsx:63`): a `teamId` of `toString` turns the entry into a string concatenation, and a `teamId` of `__proto__` drops the points. The model's contracts hold for names that are not inherited.
