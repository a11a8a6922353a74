# Service log: a Dafny model

A model of the single-page service log in `App.tsx`. The log records who held three roles at
each church service: Portão (the gate), Louvor (worship) and Palavra (the sermon). The page
keeps the saved reports and a form. It tags each date with a service day (EBD and DOM on
Sunday, then SEG, TER, QUA, QUI, SAB) and enforces the day's rules. SEG has no sermon. QUA is
the women's service and has neither worship nor sermon. The page also derives two views from
the reports. The idleness table ("ociosidade") shows, for each day and role, how long each
rotating worker has gone without that role. The activity ranking counts each worker's acts.

Modules, one file each:

- `Types` (`types.dfy`): workers, service-day tags, roles, the report record, and the rosters
  and fixed texts.
- `Seqs` (`seqs.dfy`): `filter` and a stable descending sort, plus integers extended with
  infinity.
- `Text` (`text.dfy`): `trim` and `includes`.
- `DayRules` (`day_rules.dfy`): the form's values as a `Form`, and the rules as functions.
  These cover the weekday resolver, the role requirements of each tag, the day-change effect,
  the effects after a render (`Settle`), reset, load, validation and the stored record.
- `Records` (`records.dfy`): create, edit and delete on the report list.
- `AppState` (`app.dfy`): the page state as a class. The class holds the reports, the form
  fields and the edited id. Each user action is a method, proved against the `DayRules` and
  `Records` functions, and each method keeps the invariant `Sound()`. `Sound()` means:
  - ids are unique;
  - every report's tag belongs to its date's weekday, and its roles agree with the tag;
  - the same holds for the form, as far as its fields are filled in.
- `Rotation` (`rotation.dfy`): the idleness table.
- `Stats` (`stats.dfy`): the activity counters, as a loop over a mutable map proved against
  a recursive count.
- `History` (`history.dfy`): the history search.

Representation choices:

- A date is a day number counted from 1970-01-01, which was a Thursday. The weekday of date
  `d` is therefore `(d + 4) % 7`.
- The current instant is a millisecond parameter `nowMs`. Today's date is a day-number
  parameter `today`.
- A form field that may be `''` is an `Option`.
- The `QUA` tag is part of the `Day` datatype. The declared union in `types.ts` omits it, but
  the page produces and tests it. The day list behind the idleness table still omits QUA, so
  that table has no QUA rows.

## Model

| member | source | states |
|---|---|---|
| Types.WorkersAreAllButSentinel | constants.ts:4-9 | the roster offered by the selectors is every worker except the "NÃO HOUVE" sentinel |
| DayRules.ResolveDay | App.tsx:54-81 | an empty date keeps the tag; on Sunday an EBD/DOM choice is kept and anything else cleared; otherwise the tag is that weekday's (1 SEG, 2 TER, 3 QUA, 4 QUI, 6 SAB) and Friday gives none |
| DayRules.ResolveDayIdempotent | App.tsx:84-86 | resolving the same date again keeps the tag, so a user's Sunday choice survives the date effect |
| DayRules.ResolveDayByWeekday | App.tsx:67-80 | off Sunday the tag depends only on the weekday, not on the current tag, and repeats every 7 days |
| DayRules.ResolveKeepsConsistentTag | App.tsx:67-80 | a tag that matches the date's weekday is what resolving gives back |
| DayRules.Requirement | App.tsx:159-175 | the gate is always required; worship is suppressed exactly on QUA; the sermon is suppressed exactly on SEG and QUA |
| DayRules.ApplyDayChange | App.tsx:89-111 | SEG forces the sermon to the sentinel and clears a worship sentinel; QUA forces both and fills an empty or default text with "CULTO DE SENHORAS"; other tags clear sentinels and that phrase; gate and date untouched; afterwards the roles agree with the tag |
| DayRules.ApplyDayChangeIdempotent | App.tsx:89-111 | applying the day-change effect twice for the same tag is the same as once |
| DayRules.Settle | App.tsx:84-111 | the effects after a render: date and gate are kept; the tag is re-resolved only when the date changed; agreement of roles with the tag is preserved, and established whenever the tag changed; nothing changes when neither date nor tag changed; after a date change the tag belongs to the new date's weekday, and a fitting tag stays fitting; unless date and tag both moved and resolving moved the tag again, the result is the new fields with the day-change effect applied once for the final tag, and only when that tag differs from the previous one, so a date move that keeps the tag leaves roles and text alone |
| DayRules.Reset | App.tsx:128-138 | the form after a reset holds today's date, the tag resolved for today, no gate, an empty text and empty roles, except that a move onto QUA fills the text with "CULTO DE SENHORAS" and both roles with the sentinel, and a move onto SEG fills the sermon with it; the tag belongs to today's weekday and the roles agree with it |
| DayRules.Load | App.tsx:140-150 | the form after loading a report holds its date and gate; a tag that belongs to the date is kept, along with a conforming report's roles; when the form already shows that tag every field is taken as stored; the scripture text is kept unless the tag changes and the text is one the day rules rewrite (empty or "Não informado" on QUA becomes "CULTO DE SENHORAS", that phrase off SEG and QUA becomes empty); a conforming report loads into a conforming form |
| DayRules.Validate | App.tsx:157-176 | the form passes exactly when date, tag, gate and every role the tag requires are present; each failure holds exactly when its check is the first one to fail |
| DayRules.StoredText | App.tsx:185 | text that is not all white space is stored as a piece of it with only white space cut off either side; all-white-space text is stored as "CULTO DE SENHORAS" on QUA and "Não informado" elsewhere; the result is never empty and never padded, and unpadded text is stored as typed |
| DayRules.Stored | App.tsx:190-199 | the saved record has the given id and timestamp and the form's date, tag and gate; an empty worship or sermon is stored as the sentinel; a conforming form gives a conforming record, whose tag therefore belongs to its date |
| Records.Prepend | App.tsx:200 | a new report goes first and the old list follows unchanged; a fresh id keeps ids unique; the record invariant is kept |
| Records.ReplaceById | App.tsx:177-188 | only reports with the edited id change, and they take the form's fields with their id and timestamp kept; the length and order are kept; an absent id changes nothing; unique ids and the record invariant are kept |
| Records.RemoveById | App.tsx:577 | the deleted id is gone, no report is added, every other report stays, and the record invariant is kept |
| Records.RemoveAbsent | App.tsx:577 | deleting an id that is not in the list changes nothing |
| Records.RemoveAt | App.tsx:577 | with unique ids, deleting removes exactly that one report and the others keep their relative order |
| Records.RemoveKeepsUnique | App.tsx:577 | deleting keeps ids unique |
| AppState.App.constructor | App.tsx:25-45 | on mount the stored reports are loaded, nothing is being edited, and the form is reset for today; the state is sound exactly when the loaded reports are |
| AppState.App.DayChangeEffect | App.tsx:89-111 | the effect's setters, statement by statement, produce `ApplyDayChange` of the current fields |
| AppState.App.RunEffects | App.tsx:84-111 | the date effect, then the day effect, then the extra day effect for a resolved tag produce `Settle` |
| AppState.App.SetDate | App.tsx:415-417 | changing the date re-resolves the tag and runs the day rules; soundness is kept |
| AppState.App.ChooseService | App.tsx:422-438 | choosing EBD or DOM on a Sunday sets that tag and runs the day rules; soundness is kept |
| AppState.App.SelectWorker | App.tsx:450-471 | selecting a worker for a role the tag requires changes only that role; soundness is kept |
| AppState.App.SetText | App.tsx:488-500 | editing the text changes only the text; soundness is kept |
| AppState.App.ResetForm | App.tsx:128-138 | leaves editing and resets the form for today; the reports are kept; soundness is kept |
| AppState.App.CancelEdit | App.tsx:152-155 | the same as a reset |
| AppState.App.StartEditing | App.tsx:140-150 | remembers the report's id and loads its fields; soundness is kept |
| AppState.App.Save | App.tsx:157-206 | the outcome is the validation result; a failure changes nothing; a success either prepends the stored form with a fresh id or rewrites the edited report, then resets the form; soundness is kept |
| AppState.App.Delete | App.tsx:577 | the list becomes the list without that id; the form and the edit in progress are kept; soundness is kept |
| AppState.App.ClearAll | App.tsx:735 | the list becomes empty; nothing else changes |
| Rotation.PoolIsFilteredRoster | App.tsx:300 | the rotation pool is the roster without TRANSMISSÃO and VISITANTE, in roster order; its members are exactly the eligible roster workers |
| Rotation.Newest | App.tsx:313 | the first report by date, newest first, is one of the reports and none is dated later |
| Rotation.LastExec | App.tsx:307-313 | no result exactly when no report of that day names the worker in that role; otherwise the result is such a report with the latest date |
| Rotation.DaysSince | App.tsx:315-316 | infinity exactly when there is no last service; otherwise the floor of now in days minus the last date |
| Rotation.Entries | App.tsx:306-319 | one entry per pool worker, in pool order, each built from that worker's last service |
| Rotation.Ranking | App.tsx:320 | a permutation of the pool's entries, sorted by days since, descending |
| Rotation.SortedUrgentFirst | App.tsx:647 | in a sorted list the never-assigned entries come first, and the urgent entries (more than 21 days, or never) form a prefix |
| Rotation.RankingCoversPool | App.tsx:300-320 | the ranking lists every pool worker exactly once, each with its own entry |
| Rotation.AvailabilityTable | App.tsx:299-324 | a ranking for every tag except QUA and every role, and no other key |
| Stats.ZeroStats | App.tsx:328 | every roster worker starts with all three counters at zero |
| Stats.CountReport | App.tsx:329-333 | one report adds one to the counter of each role, for the worker holding it if that worker has an entry |
| Stats.WorkerStats | App.tsx:326-335 | keys are exactly the roster, the sentinel is absent, and each counter is the number of reports naming that worker in that role |
| Stats.CountsStep | App.tsx:329-332 | counting one more report adds one to each counter of a worker that report names |
| Stats.TallyAppend | App.tsx:329-332 | counts over two lists of reports add up |
| Stats.TallyPrepend | App.tsx:200 | saving a new report adds one to exactly the counters of the workers it names |
| Stats.TotalPrepend | App.tsx:681 | a worker's displayed total grows by one for each role a newly saved report gives them |
| Stats.TallyRemove | App.tsx:577 | deleting a report takes one off exactly the counters of the workers it names |
| Stats.WorkersDistinct | constants.ts:4-9 | no worker is listed twice on the roster |
| Stats.Details | App.tsx:277-283 | `showWorkerDetails`: exactly the saved reports in which the worker held the role are listed (for the sermon, never the sentinel's), none more often than saved, latest date first |
| Stats.DetailsMatchCounter | App.tsx:277-283 | the detail list opened from a counter has as many reports as that counter shows; only the sentinel's sermon list is always empty |
| Stats.ListedTally | App.tsx:277-282 | the number of reports the detail filter keeps is the worker's tally for that role, counted report by report |
| Stats.TalliesAddUp | App.tsx:326-335 | over the roster, one role's counters sum to the number of reports in which a worker, not the sentinel, held that role |
| History.Search | App.tsx:561-566 | lists exactly the saved reports whose lower-cased role names or text contain the lower-cased term, none more often than saved, newest first |
| History.EmptySearchListsAll | App.tsx:561-566 | an empty search lists every saved report exactly once |
| Seqs.Filter | App.tsx:561 | `filter` keeps only elements satisfying the predicate, never more than were given |
| Seqs.FilterIn | App.tsx:561 | an element is in the filtered list exactly when it is in the list and satisfies the predicate |
| Seqs.FilterAppend | App.tsx:577 | `filter` over a concatenation is the concatenation of the filtered parts, so order is kept |
| Seqs.FilterAll | App.tsx:577 | `filter` with a predicate every element satisfies changes nothing |
| Seqs.SortDesc | App.tsx:320 | the sort gives a permutation of its input in descending key order |
| Seqs.SortDescIn | App.tsx:320 | sorting keeps exactly the elements it is given |
| Seqs.Insert | App.tsx:320 | inserting into a sorted list keeps it sorted and adds exactly that element |
| Text.TrimBoth | App.tsx:185 | the result is a piece of the input with only accepted characters cut off before and after it; neither of its ends is accepted; it gives the empty string exactly when every character is accepted, and leaves a string with unaccepted ends unchanged |
| Text.Trim | App.tsx:185 | `trim`: the result is the input with only white space cut off at each end, neither end is white space, the result is empty exactly when the input is all white space, and a string with no white space at its ends is unchanged |
| Text.Includes | App.tsx:562-565 | `includes`: the empty needle is always found, a needle longer than the text never is, and a prefix always is |
| Text.IncludesSlice | App.tsx:562-565 | every piece cut from a string is included in it |
| Text.IncludesAt | App.tsx:562-565 | conversely, when a string includes a needle, the needle occurs in it at some index |

## Left out

- Browser storage is not modelled. Reports are written on every change and loaded on mount
  (`utils/storage.ts`, App.tsx:40-51); the constructor takes the loaded list as a parameter.
  Export, import and the restore path (App.tsx:208-219) are not part of this model.
- WhatsApp sharing (App.tsx:221-275), the toast and its timer, `alert`/`confirm`, the
  rendering of the modal (including the list `showWorkerDetails` puts in it), tabs, scrolling and the expand toggles of the idleness view are left out. They are
  presentation and foreign calls only. The confirmation before a delete or a clear is assumed
  to have been given.
- `crypto.randomUUID` and `Date.now()` are parameters of `AppState.App.Save`. The fresh id is
  a precondition: it is not among the saved ids.
- Dates are day numbers and the instant is in milliseconds since the epoch. Time zones and
  daylight saving are not modelled.
- `toLowerCase` is the parameter `lower` of `History.Search`. The Unicode case mapping is
  not modelled.
- Seqs.SortDesc: stability is not stated. The sort is stable, like `Array.prototype.sort`,
  but the contract gives only order and permutation. Entries with equal keys may therefore
  appear in any order as far as `Rotation.Ranking` and `History.Search` promise.
- Records.RemoveById: the contract does not state that the kept reports stay in order.
  `Records.RemoveAt` proves it when ids are unique.
- Rotation.LastExec: among reports with the same latest date, the contract does not say
  which one is picked. Only the date is used downstream.
- AppState.App.Save: a save while editing a report that has since been deleted changes no
  report. `Records.ReplaceById` leaves a list without that id unchanged, and the form is still
  reset. The page behaves the same way.
- AppState.App.SelectWorker: the precondition reflects the page only offering selectors for
  required roles and never offering the sentinel. An unguarded setter is not modelled.
- The day effect runs only when the tag actually changes. React skips an effect whose
  dependency is unchanged, and `DayRules.Settle` models exactly that; effect scheduling itself
  is not modelled.
- The idleness view hides the sermon rows of EBD, SEG and QUA (App.tsx:627-628). This is
  rendering only: `Rotation.AvailabilityTable` still computes those rankings, as the page
  does.
