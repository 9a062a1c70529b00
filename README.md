# Gym lead list — a Dafny model

This project models the logic inside the `LeadsList` React component of a gym
lead-generation site (`src/app/components/userlist.jsx`). On mount the
component loads the lead records from `GET /api/leads`. If that fails, it
shows three built-in sample records instead. It renders the leads in a table, in
reverse of the order they were received, and a click on a row opens or closes that row's detail panel.

The model has seven modules:

- `Wrappers`: the `Option` and `Result` values.
- `Leads`: the lead record and the `DUMMY_LEADS` fallback data.
- `Fetch`: the `getLeads` rule. A response is either a list of leads or a thrown error.
- `Session`: the view state (`leads`, `loading`, `error`, `expandedLeadId`) and its two transitions, load and click, written as functions. It also has lemmas about any sequence of those events.
- `Component`: the component as a class with those four fields. Its `Load` and `Click` methods update the fields in place and are proved to match `Session`'s transitions.
- `Display`: what gets rendered, as a pure function of the view state (spinner, banner, placeholder row, rows, detail panel).
- `Labels`: the fitness-goal, experience and preferred-time label expressions, written with JavaScript's own semantics. That means optional chaining, `+` with `undefined` giving `NaN`, `||` falsiness, and `replace` with a string pattern changing only the first match.

Rendering is a function of the state, so it cannot change `leads`. The rows
are a reversed copy of the list, as `slice().reverse()` makes in the source.
That is newest-first only when the list arrives oldest-first, as the fallback
records do (their `createdAt` values rise); nothing here assumes an order
for the endpoint's list.

The network result is an input. `Fetch.Outcome` is either a network failure or
a response with a status, a status text and a body. The body is either
malformed or carries the `leads` field. `res.ok` is the Fetch Standard's "ok
status": 200 to 299 inclusive.

Two behaviours of the code are easy to misread:

- `setError` is never called, on success or on failure. So `error` stays `null` and the warning banner is never shown (`Session.RunKeepsError`, `Display.NoBannerWithoutError`).
- `replace('-', ' ')` with a string pattern changes only the first dash of a goal or time (`Labels.FitnessGoalOfDashed`, `Labels.ReplaceFirstKeepsRest`).

## Model

| member | source | states |
|---|---|---|
| `Leads.DummyLeadsShape` | src/app/components/userlist.jsx:5-39 | the fallback data is three records whose `_id`s are "1", "2", "3" in that order, and they are distinct |
| `Fetch.GetLeads` | src/app/components/userlist.jsx:41-62 | the loader succeeds exactly on a response with a 2xx status and a readable body; the result is then the body's `leads` field, or the empty list when it is absent or falsy; a non-ok status throws with that status and status text |
| `Fetch.BadStatusIgnoresBody` | src/app/components/userlist.jsx:50-52 | a non-ok status fails whatever the body holds |
| `Session.LoadSettles` | src/app/components/userlist.jsx:70-85 | after the load attempt settles, `loading` is false on both paths, and neither `error` nor `expandedLeadId` changes |
| `Session.LoadInstalls` | src/app/components/userlist.jsx:73-77 | a failed load installs exactly the fallback records, ids "1", "2", "3" in order; a successful one installs the response's `leads`, or the empty list when it is missing |
| `Session.Settle` | src/app/components/userlist.jsx:72-78 | the list the settled load installs: the body's `leads` (or `[]`) for an ok, parsed response; the fallback records for a network failure, a non-ok status or an unreadable body |
| `Session.LoadStep` | src/app/components/userlist.jsx:70-85 | the load transition: the settled list replaces `leads`, and no field but `leads` and `loading` changes |
| `Session.Toggle` | src/app/components/userlist.jsx:97-99 | the click rule on the selected id: the new selection is none or the clicked id, and it always differs from the old one |
| `Session.ClickStep` | src/app/components/userlist.jsx:97-99 | the click transition: only the selection changes, by the click rule, so every click changes the state |
| `Session.ToggleSelects` | src/app/components/userlist.jsx:97-99 | a click clears the selection exactly when it hits the already-selected id; otherwise that id becomes the one selected |
| `Session.ToggleTwice` | src/app/components/userlist.jsx:97-99 | two clicks on the same row restore the selection exactly when it was none or that row |
| `Session.RunKeepsError` | src/app/components/userlist.jsx:67-85 | no sequence of loads and clicks ever changes `error` |
| `Session.RunLoading` | src/app/components/userlist.jsx:66-81 | after any events, `loading` is still true exactly when it was true and no load has settled |
| `Session.RunSelection` | src/app/components/userlist.jsx:97-99 | loads never touch the selection; it is the result of toggling the clicked ids in order |
| `Session.ToggleAllLast` | src/app/components/userlist.jsx:97-99 | after one or more clicks, the selection is either none or the id clicked last, so at most one row is ever expanded |
| `Session.RunLeads` | src/app/components/userlist.jsx:73-77 | clicks never change `leads`; after any events `leads` is the last load's result, or its earlier value if no load has settled |
| `Session.RunSplit` | src/app/components/userlist.jsx:70-99 | running the events plus one more is the same as running the events and then taking one more step |
| `Session.FromMount` | src/app/components/userlist.jsx:65-85 | from the mount state, `error` stays null, `loading` holds exactly until a load settles, `leads` stays empty until then, and the selection is none or the id clicked last |
| `Component.LeadsList.constructor` | src/app/components/userlist.jsx:65-68 | the initial state is no leads, loading, no error and nothing expanded |
| `Component.LeadsList.Load` | src/app/components/userlist.jsx:70-85 | the new state is the settled load transition of the old one: the fetched or fallback list, `loading` cleared, error and selection unchanged |
| `Component.LeadsList.Click` | src/app/components/userlist.jsx:97-99 | the selection is toggled for the clicked id and nothing else changes |
| `Display.ReverseAt` | src/app/components/userlist.jsx:150 | the reversed copy has the list's length, and position k holds element `|leads|-1-k` |
| `Display.ReverseTwice` | src/app/components/userlist.jsx:150 | reversing the copy twice gives the original list back, so no record is lost or reordered other than by the reversal |
| `Display.Render` | src/app/components/userlist.jsx:101-216 | the whole rendered view: the spinner exactly while `loading`; otherwise a page with the banner and the table body of the current state, whose body is the placeholder exactly when there are no leads |
| `Display.Banner` | src/app/components/userlist.jsx:112-125 | the warning banner, present only for a truthy (non-empty) `error` |
| `Display.PlaceholderText` | src/app/components/userlist.jsx:204-209 | the placeholder row reads "No leads found.", and only the placeholder body has it |
| `Display.Reverse` | src/app/components/userlist.jsx:150 | the reversed copy `slice().reverse()` makes, with the list's length |
| `Display.RowOf` | src/app/components/userlist.jsx:150-201 | one lead's row: the lead, its three labels, and a detail panel only when its `_id` equals `expandedLeadId` |
| `Display.DetailOf` | src/app/components/userlist.jsx:185-196 | the detail panel's content: the interests exactly when the list is present and non-empty, otherwise the placeholder, so the panel never shows nothing |
| `Display.BodyOf` | src/app/components/userlist.jsx:149-150 | the body is a table exactly when there are leads, with one row per lead |
| `Display.SpinnerWhileLoading` | src/app/components/userlist.jsx:101-107 | only the spinner is rendered, exactly while `loading` is set |
| `Display.EmptyListPlaceholder` | src/app/components/userlist.jsx:204-209 | once loaded, the single "No leads found." row appears exactly when there are no leads |
| `Display.RowsReversed` | src/app/components/userlist.jsx:149-177 | with leads, there is one row per lead, row k shows lead `|leads|-1-k`, and its three labels are that lead's |
| `Display.DetailUnderSelected` | src/app/components/userlist.jsx:179-196 | a row has a detail panel exactly when its lead's `_id` equals `expandedLeadId`; the panel lists the interests in order, or "No interests specified" when they are missing or empty |
| `Display.AtMostOneDetail` | src/app/components/userlist.jsx:179 | when ids are unique, no two rows show a detail panel |
| `Display.SomeDetailIffSelectedPresent` | src/app/components/userlist.jsx:179 | some row shows a detail panel exactly when the selected id is the `_id` of some lead |
| `Display.NoBannerWithoutError` | src/app/components/userlist.jsx:112-125 | when `error` is unset, no warning banner is rendered |
| `Display.FallbackShownReversed` | src/app/components/userlist.jsx:5-150 | after a failed load the table has three rows, reading Pranjal, Bhanuj, Aanand from top to bottom |
| `Leads.DummyLeads` | src/app/components/userlist.jsx:5-39 | the three fallback records, field by field; `createdAt` is the opaque local-time token |
| `Fetch.IsOkStatus` | src/app/components/userlist.jsx:50 | `res.ok`: a status from 200 to 299 inclusive |
| `Labels.UpperChar` | src/app/components/userlist.jsx:165-173 | `toUpperCase` on one character: lower-case ASCII letters move down by 32 to the upper-case letter, everything else is kept, and no lower-case letter remains |
| `Labels.ToUpper` | src/app/components/userlist.jsx:165-173 | `toUpperCase` on a string: one character out per character in |
| `Labels.CharAt` | src/app/components/userlist.jsx:169-172 | `charAt(k)`: the one-character string at `k`, or the empty string past the end |
| `Labels.Slice` | src/app/components/userlist.jsx:169-173 | `slice(k)`: the text from `k` on, or the empty string past the end |
| `Labels.Chain` | src/app/components/userlist.jsx:165-173 | optional chaining `x?.…`: `undefined` for a missing value, the call's string otherwise |
| `Labels.Plus` | src/app/components/userlist.jsx:169-173 | the `+` operator: when either side is a string, the concatenation of both sides' string forms (so `undefined` reads "undefined"); `NaN` when neither side is a string, as for `undefined + undefined` |
| `Labels.OrElse` | src/app/components/userlist.jsx:165-173 | `v || 'Not specified'`: the value when truthy, the placeholder for `undefined`, `NaN` or the empty string |
| `Labels.CapitalisedOr` | src/app/components/userlist.jsx:169-173 | the shared shape of the experience and time cells: the placeholder for a missing value or empty text, otherwise the first character upper-cased plus the rest |
| `Component.MountLoadClickTwice` | src/app/components/userlist.jsx:64-99 | a worked example on the class: after mounting and settling the load, a first click on a row selects it and a second click clears the selection |
| `Labels.ReplaceFirst` | src/app/components/userlist.jsx:165 | `replace('-', ' ')` keeps the length; it leaves a dash-free string unchanged, and otherwise splices a space in at the first dash only |
| `Labels.ReplaceFirstKeepsRest` | src/app/components/userlist.jsx:165 | everything after the first dash, including later dashes, is unchanged; exactly one dash becomes one space |
| `Labels.FitnessGoalLabel` | src/app/components/userlist.jsx:165 | the fitness-goal label is "Not specified" exactly when the goal is missing or empty; otherwise it has the goal's length |
| `Labels.FitnessGoalChars` | src/app/components/userlist.jsx:165 | character i of the label is the goal's character i upper-cased, with the first dash turned into a space |
| `Labels.FitnessGoalOfDashed` | src/app/components/userlist.jsx:165 | a goal `a-b`, with no dash in `a`, is shown as upper-case `a`, a space, then upper-case `b` with any later dashes kept (`weight-loss` becomes `WEIGHT LOSS`) |
| `Labels.ExperienceLabel` | src/app/components/userlist.jsx:169 | a missing or empty level shows "Not specified"; otherwise the label is the level with only its first character upper-cased |
| `Labels.ExperienceExample` | src/app/components/userlist.jsx:169 | `beginner` is shown as `Beginner` |
| `Labels.PreferredTimeLabel` | src/app/components/userlist.jsx:172-173 | a missing or empty time shows "Not specified"; otherwise the label has the time's length |
| `Labels.PreferredTimeChars` | src/app/components/userlist.jsx:172-173 | the label is the time with its first dash turned into a space and only the first character upper-cased |
| `Labels.PreferredTimeOfDashed` | src/app/components/userlist.jsx:172-173 | a time `a-b`, with `a` non-empty and dash-free, is shown as `a` with its first character upper-cased, a space, then `b` unchanged |

## Left out

- The network call, `res.json()`, `cache: 'no-store'` and the `console` logging are left out. Only the settled outcome is modelled, as the `Fetch.Outcome` input.
- React's scheduling is left out: `useState`/`useEffect`, async ordering, re-renders and unmounting before the response arrives. The state is four fields changed by `Load` and `Click`.
- `formatDate` is left out. It uses `toLocaleDateString('en-US', …)`, which depends on the runtime's locale and time zone, so `createdAt` is an opaque `Stamp`.
- The fallback records' `createdAt` values are `new Date(local).toISOString()`, which depends on the time zone. They are modelled as `FromLocal(local)` tokens.
- `Labels.ToUpper`: only ASCII letters are upper-cased. Full Unicode case mapping, and strings whose length it changes, are not modelled.
- `Leads.Lead`: `_id` is always a string. A record with a missing `_id`, or field values that are not strings (which would make `replace` throw), are not modelled.
- `Labels.ExperienceLabel`, `Labels.PreferredTimeLabel`: strings are sequences of characters. JavaScript indexes UTF-16 code units, so taking the first character of a string that starts with a character outside the Basic Multilingual Plane is not modelled.
- `Fetch.Body`: a `leads` field that is truthy but not an array is not modelled. Absent, `null` and other falsy values all count as missing.
- JSX markup, CSS classes, the SVG icon and the table headings are left out as pure presentation. The rendered view keeps only its structure: spinner, banner, placeholder row, and rows with their labels and detail panels.
