# Safety map and crime statistics: a Dafny model

This project models the two parts of the Aurazone web client that contain logic:

- **The incident engine of the safety map** (`src/components/SafetyMap.tsx`). It keeps a list of
  reported incidents. Visitors filter the list by category and search it by text. Each category
  shows a badge with its count, and the shown incidents are drawn on a heat layer. Anyone can report
  an incident by postcode. The postcode is looked up to find coordinates; an unknown postcode is
  refused. An administrator can log in with the shared credential pair, then edit or delete reports.
- **The crime statistics page** (`src/components/Statistics.tsx`). It counts a police feed of crimes
  per category and per outcome. It also turns category slugs into chart labels and counts the
  solved cases.

Layout:

- `wrappers.dfy`: the `Option` type.
- `seqs.dfy`: the array built-ins the components use. This is `filter`, plus the notions the
  contracts speak in: subsequence, duplicate-freedom, and distinct elements in first-seen order.
- `text.dfy`: the string built-ins. These are case mapping, `includes` (proved equal to "occurs as
  a substring"), `replace`, `split` and `join`. `join` undoes `split`.
- `incidents.dfy`: the value side of the map. It holds the incident record, the report form, the
  filtered view, the badge counts, the heat-layer points, and the list updates that delete, edit
  and create apply.
- `safety_map.dfy`: the component itself, as the class `SafetyMapState`.
  - Each state hook of the component is a field.
  - Each event handler is a method. Its `modifies` clause names exactly the fields it changes.
  - A ghost invariant `Valid()` is kept by every method: the dashboard is shown exactly while
    logged in, incident ids are unique, and no category is selected twice. Every stored incident's
    category and the form's category are one of the listed categories or the select's empty option.
  - A ghost log `geocodeQueries` records every postcode sent to the lookup service, so "the service
    is not asked" can be stated.
  - Two client scenarios chain handler calls and prove their combined effect.
- `statistics.dfy`: the counting loop of both tallies, as a method with loop invariants. Also the
  chart label, characterised character by character, and the solved-cases figure.

The postcode service is a parameter of `SubmitReport`, `lookup: string -> Option<Coord>`. The
source's `isValid` flag is true exactly when its coordinates are present, so `None` stands for
both "unknown postcode" and "request failed". The police feed is the `crimes` parameter of the
statistics members. The report date is the `today` parameter.

## Model

| member | source | states |
|---|---|---|
| Incidents.FilteredMembership | src/components/SafetyMap.tsx:225-231 | An incident is shown iff it is in the list, its category is selected or nothing is selected, and the lower-cased query occurs in its lower-cased location, description or postcode. |
| Incidents.FilteredIncidents | src/components/SafetyMap.tsx:225-231 | The filtered view: no longer than the list, and an incident is in it iff it is listed and passes both the category test and the search test. |
| Incidents.MatchesType | src/components/SafetyMap.tsx:226 | With no category selected every incident passes. Otherwise an incident passes iff its category is selected. |
| Incidents.MatchesSearch | src/components/SafetyMap.tsx:227-229 | The search test on the lower-cased location, description and non-empty postcode. An empty search text passes every incident. |
| Incidents.MatchesSearchIsSearchHit | src/components/SafetyMap.tsx:227-229 | The `includes`-based search test agrees with the substring reading of the search, including the skipped empty postcode. |
| Incidents.FilteredOrder | src/components/SafetyMap.tsx:225 | The view is a subsequence of the list: the list's order is kept. |
| Incidents.EmptyQueryMatchesAll | src/components/SafetyMap.tsx:225-231 | An empty search hides nothing. With no category selected either, the view is the whole list. |
| Incidents.CountByType | src/components/SafetyMap.tsx:131-133 | A badge count is at most the number of incidents. |
| Incidents.CountByTypeIsTypeOnlyView | src/components/SafetyMap.tsx:131-133 | A badge counts the whole list, not the view. It equals the number of incidents shown when only that category is selected and the search is empty, whatever the current selection and search are. |
| Incidents.CountByTypeAfterAppend | src/components/SafetyMap.tsx:204 | A new report adds one to its own category's badge and nothing to the others. |
| Incidents.CountsOf | src/components/SafetyMap.tsx:300-313 | One count per given category, in the same order, each being that category's badge count. |
| Incidents.BadgePanel | src/components/SafetyMap.tsx:300-313 | The filter panel shows one badge per listed category, in the listed order, with that category's count over the whole list. |
| Incidents.CountsOfSum | src/components/SafetyMap.tsx:300-313 | The badges of distinct categories add up to the number of incidents whose category is one of them. |
| Incidents.BadgeTotal | src/components/SafetyMap.tsx:300-313 | The ten listed categories are distinct, so the panel's badges add up to the number of incidents with a listed category, which is at most the number of incidents. |
| Incidents.HeatmapPoints | src/components/SafetyMap.tsx:28-32 | There is one point per incident, in order, carrying that incident's coordinates and the weight 0.5. |
| Incidents.Toggle | src/components/SafetyMap.tsx:217-223 | The toggled category is selected afterwards iff it was not selected before, and every other category keeps its selection state. A selected category is filtered out; an unselected one is appended at the end. |
| Incidents.Without | src/components/SafetyMap.tsx:220 | Dropping a category keeps exactly the other selected categories and never lengthens the selection. |
| Incidents.ToggleKeepsOthers | src/components/SafetyMap.tsx:217-223 | Apart from the toggled category, the selection is the same sequence in the same order. |
| Incidents.ToggleKeepsNoDup | src/components/SafetyMap.tsx:217-223 | Toggling keeps a duplicate-free selection duplicate-free. |
| Incidents.ToggleTwice | src/components/SafetyMap.tsx:217-223 | Toggling twice gives a duplicate-free selection with the same members. It is the same sequence when the category was unselected; otherwise the category moves to the end. |
| Incidents.RemoveById | src/components/SafetyMap.tsx:152 | Deleting removes every incident with the id. Every other incident stays, with its multiplicity. |
| Incidents.RemoveByIdOrderAndIdempotence | src/components/SafetyMap.tsx:151-153 | The remaining incidents keep their order, and deleting the same id again changes nothing. |
| Incidents.RemoveByIdKeepsUniqueIds | src/components/SafetyMap.tsx:152 | Deleting keeps ids unique. |
| Incidents.MaxId | src/components/SafetyMap.tsx:197 | For a non-empty list, the result is at least every id and equal to one of them. |
| Incidents.NextId | src/components/SafetyMap.tsx:197 | For a non-empty list, the new id is above every existing id and exactly one above one of them. |
| Incidents.NewIncident | src/components/SafetyMap.tsx:198-203 | The record a successful report appends takes the given id and date, the looked-up coordinates, and type, location, description and postcode from the form. A search for its own postcode finds it. |
| Incidents.Edited | src/components/SafetyMap.tsx:188-192 | An edited record is the record a new report from the same form would be, with the old id and date kept. A search for the form's postcode finds it. |
| Incidents.ApplyEdit | src/components/SafetyMap.tsx:186-194 | The list keeps its length. Each entry with the edited id becomes the form's fields over the old record, keeping the old id and date and taking the looked-up coordinates. Every other entry is unchanged. |
| Incidents.EditChangesOnlyTarget | src/components/SafetyMap.tsx:185-195 | Editing a listed incident in a list with unique ids changes that entry only. The entry keeps its id and date, takes type, location, description and postcode from the form and coordinates from the lookup. Ids stay unique. |
| Incidents.EditKeepsUniqueIds | src/components/SafetyMap.tsx:186-194 | Editing keeps ids unique. |
| Incidents.CreateKeepsUniqueIds | src/components/SafetyMap.tsx:196-204 | Appending a report with the next id to a non-empty list with unique ids keeps ids unique. |
| Incidents.SampleIdsUnique | src/components/SafetyMap.tsx:81-87 | The five sample incidents have distinct ids. |
| SafetyMap.SafetyMapState.constructor | src/components/SafetyMap.tsx:90-111 | The initial state: the sample incidents, no selection, an empty search, the heat layer on, every dialog closed, logged out, no edit context, a blank form and no error. |
| SafetyMap.SafetyMapState.View | src/components/SafetyMap.tsx:225-231 | The markers show exactly the listed incidents that pass the category test and whose location, description or postcode contains the search text, ignoring case, in the list's order. |
| SafetyMap.SafetyMapState.HeatLayer | src/components/SafetyMap.tsx:330 | The heat layer has one point per shown incident, in order, while the map is on screen and the layer is on. Otherwise it has none. |
| SafetyMap.SafetyMapState.ToggleType | src/components/SafetyMap.tsx:217-223 | The selection becomes `Toggle` of the old selection. Only the selection changes, and it stays duplicate-free. |
| SafetyMap.SafetyMapState.SetSearchQuery | src/components/SafetyMap.tsx:288 | The search text becomes the typed text. Nothing else changes. |
| SafetyMap.SafetyMapState.ToggleHeatmap | src/components/SafetyMap.tsx:243 | The heat layer flag flips. Nothing else changes. |
| SafetyMap.SafetyMapState.OpenLoginForm | src/components/SafetyMap.tsx:260-266 | The login button is offered only while logged out, and it opens the login dialog. |
| SafetyMap.SafetyMapState.CloseLoginForm | src/components/SafetyMap.tsx:391 | The login dialog closes. |
| SafetyMap.SafetyMapState.Login | src/components/SafetyMap.tsx:135-144 | The login is accepted iff both the username and the password match the credential pair. Acceptance sets the admin flag, shows the dashboard and closes the dialog. A mismatch changes nothing. The dashboard follows the admin flag. |
| SafetyMap.SafetyMapState.Logout | src/components/SafetyMap.tsx:146-149 | Logging out clears the admin flag and hides the dashboard. |
| SafetyMap.SafetyMapState.DeleteIncident | src/components/SafetyMap.tsx:151-153 | Offered only on the dashboard. The list becomes `RemoveById` of the old list, and ids stay unique. |
| SafetyMap.SafetyMapState.EditIncident | src/components/SafetyMap.tsx:155-165 | Offered only on the dashboard, for a listed incident. It records the edit context, loads the incident's fields into the form (a missing postcode becomes empty) and opens the dialog. |
| SafetyMap.SafetyMapState.EnterKind | src/components/SafetyMap.tsx:470-480 | The category select offers only the listed categories and its empty option; the form's category becomes the chosen one and nothing else changes. Stored and drafted categories stay within those options. |
| SafetyMap.SafetyMapState.EnterPostcode | src/components/SafetyMap.tsx:489-492 | The form's postcode becomes the typed text upper-cased, and the error is cleared. |
| SafetyMap.SafetyMapState.EnterLocation | src/components/SafetyMap.tsx:513 | The form's location becomes the typed text. Nothing else changes. |
| SafetyMap.SafetyMapState.EnterDescription | src/components/SafetyMap.tsx:524 | The form's description becomes the typed text. Nothing else changes. |
| SafetyMap.SafetyMapState.OpenReportForm | src/components/SafetyMap.tsx:254 | The report dialog opens. |
| SafetyMap.SafetyMapState.CancelReport | src/components/SafetyMap.tsx:446-457 | Closing the dialog drops the edit context, blanks the form and clears the error. The list is untouched. |
| SafetyMap.SafetyMapState.SubmitReport | src/components/SafetyMap.tsx:167-215 | Four cases. (1) An empty postcode sets "Postcode is required"; the service is not asked and nothing else changes. (2) Otherwise the service is asked exactly once, about the form's postcode. (3) An unknown postcode sets "Invalid postcode" and leaves the list, the form, the edit context and the dialog as they were. (4) A known postcode either applies the edit or appends one record with the next id, the form's fields, the looked-up coordinates and the given date. It then clears the edit context, blanks the form and closes the dialog. |
| Text.ContainsIsSubstring | src/components/SafetyMap.tsx:227-229 | `includes` holds iff the query occurs as a contiguous block. |
| Text.Contains | src/components/SafetyMap.tsx:227-229 | `includes` holds when the query is a prefix of the text, and never for a query longer than the text. |
| Text.Lower | src/components/SafetyMap.tsx:227 | Lower-casing keeps the length and maps every character. |
| Text.Upper | src/components/SafetyMap.tsx:490 | Upper-casing keeps the length and maps every character. |
| Text.ReplaceChar | src/components/Statistics.tsx:44 | Every hyphen becomes a space, and every other character is kept. |
| Text.Split | src/components/Statistics.tsx:44 | Splitting gives at least one word, and no word contains the separator. |
| Text.Join | src/components/Statistics.tsx:46 | The separator occurs in the joined text iff there are at least two words or one of the words contains it. |
| Text.JoinSplit | src/components/Statistics.tsx:44-46 | Joining the words of a split with the same separator gives back the text. |
| Seqs.Distinct | src/components/Statistics.tsx:43 | The keys of the count object are duplicate-free and are exactly the keys met. |
| Seqs.Filter | src/components/SafetyMap.tsx:225 | `filter` keeps exactly the elements that satisfy the predicate, each with its multiplicity, and never lengthens the list. |
| Seqs.DistinctCard | src/components/Statistics.tsx:102 | There are as many distinct keys as there are elements in the set of keys. |
| Statistics.Tally | src/components/Statistics.tsx:39-42 | The counting loop ends with the keys in first-seen order. A key is counted iff it occurs, and its count is its number of occurrences. |
| Statistics.CountSumDistinct | src/components/Statistics.tsx:40-42 | Conservation: the counts of the distinct keys add up to the number of keys. |
| Statistics.CrimesByCategory | src/components/Statistics.tsx:38-49 | There is one entry per distinct category, in first-seen order. Each entry is named with the category's label and carries its number of crimes. There are as many entries as categories, every count is at least 1, and the counts add up to the number of crimes. |
| Statistics.OutcomeStatistics | src/components/Statistics.tsx:51-58 | There is one bucket per distinct outcome, in first-seen order, with its number of crimes. Every count is at least 1, and the counts add up to the number of crimes. |
| Statistics.CapitalizeAll | src/components/Statistics.tsx:44-46 | Each word is capitalised in place. |
| Statistics.Capitalize | src/components/Statistics.tsx:45 | A word keeps its length. Its first character is upper-cased and the rest are kept. |
| Statistics.Label | src/components/Statistics.tsx:44-46 | A label has the slug's length, and equals a left-to-right scan of the slug with hyphens turned into spaces that upper-cases every character at the start or after a space. |
| Statistics.LabelAt | src/components/Statistics.tsx:44-46 | A label has the slug's length. A hyphen becomes a space. A character that starts a word (first, or after a hyphen or space) is upper-cased. Every other character is kept. |
| Statistics.LabelHasNoHyphen | src/components/Statistics.tsx:44 | No label contains a hyphen. |
| Statistics.OutcomeOf | src/components/Statistics.tsx:54 | A crime's bucket name is never empty: it is "Under Investigation" or the crime's own outcome category. |
| Statistics.Solved | src/components/Statistics.tsx:111 | A crime counts as solved when it has an outcome with a non-empty category. A solved crime with an outcome with a non-empty category goes to that category's bucket. Every other crime goes to "Under Investigation". |
| Statistics.UnderInvestigationBucket | src/components/Statistics.tsx:54 | The "Under Investigation" bucket counts the crimes not counted as solved, plus the solved crimes whose outcome is literally named "Under Investigation". |
| Statistics.SolvedCount | src/components/Statistics.tsx:111 | The solved figure is at most the number of crimes. |
| Statistics.SolvedPartition | src/components/Statistics.tsx:111 | Solved and unsolved crimes together are all the crimes. |

## Left out

- The network requests. These are the postcode lookup (`src/components/SafetyMap.tsx:115`) and the
  police feed (`src/components/Statistics.tsx:22-27`). The first is the `lookup` parameter and the
  second is the `crimes` parameter. The loading and error screens of the statistics page are not
  modelled.
- The asynchronous lookup. `SubmitReport` runs the lookup and its outcome as one step, so the
  `isValidatingPostcode` flag and the inputs it disables are not modelled. Nor is a dialog closed
  or edited while a lookup is in flight.
- The map rendering: the heat layer's add/remove lifecycle, its options and gradient, the tile
  layer, the markers and the marker-icon patching. These are calls into the map library. Only the
  point projection is modelled.
- The report date. In the source it is today's date from the clock; here it is a parameter.
- Floating point. Coordinates are pairs of reals that are only copied, never computed on. The
  outcome bars' percentage width is not modelled.
- Incidents.MaxId: requires a non-empty list, because `Math.max` of no ids is minus infinity,
  which no integer stands for.
- Incidents.NextId: requires a non-empty list. The source's `Math.max` of no ids is minus infinity, so a
  report created after every incident has been deleted gets no usable id. `SubmitReport`
  therefore requires a non-empty list on the path that creates a report. It invents no fallback
  id.
- SafetyMap.SafetyMapState.Login: the credential pair is two constants fixed at construction, not
  the literal values in the source. Failed logins raise a browser alert, which is left out.
- The login form's username and password inputs, their prefilled password and the show-password
  toggle. `Login` takes the typed pair as its arguments.
- Text.Lower: maps the ASCII letters only; JavaScript case mapping covers all of Unicode.
- Text.Upper: maps the ASCII letters only, for the same reason.
- Statistics.Capitalize: upper-cases the first character with the ASCII-only mapping, so it keeps the
  word's length. JavaScript may lengthen it (`'ß'.toUpperCase()` is `"SS"`).
- Statistics.Label: the same holds for every word of a label, so "a label has the slug's length"
  is promised for the model, and holds in JavaScript only for slugs whose word starts upper-case to
  one character (every ASCII slug does).
- Statistics.LabelAt: states the character-by-character rule under the same ASCII-only mapping; it
  matches JavaScript for ASCII slugs only.
- The browser's `required` checks on the report form's fields. A browser refuses to submit an
  empty field before the handler runs. The model lets every submission reach the handler, so the
  empty-postcode branch is reachable here.
- Statistics.Tally: uses first-seen key order. A JavaScript object lists integer-like keys first,
  in numeric order, and treats keys such as `__proto__` specially. Category and outcome names in
  the feed are words, so this does not arise for them.
- The outcome labels shown on the statistics page (`src/components/Statistics.tsx:152-154`) use the
  same formatting as `Label`. They are not given a member of their own.
- Everything else in the client: the navigation bar, sign-in, landing, footer, contact, alerts,
  about and features pages, and the routing. These are markup, routing or calls into the
  authentication service.
