# TETFUND monitoring report: a verified model of its core

The app is a single-page form. A monitoring officer uses it to fill in the
second/final tranche monitoring report of the Tertiary Education Trust Fund
for one institution. The form holds:

- a table of projects (costs, percentage disbursed, percentage complete, ratings, remarks);
- the monitoring team;
- the DM&E approval block;
- an optional "bank and administrative charges" rider.

From this the app computes summary figures, prints an official report, and
keeps a draft of the form as a key-value snapshot.

This project models the logic underneath the form. That logic is:

- recomputing the project table;
- the commands that add or remove the last project or team member;
- the summary with its charges rider;
- the rules the printed report is built by: validation, the charges row, the
  comments default, page size, table rows, and number and date formats;
- saving and reading back the draft snapshot.

The modules are:

- `Wrappers`: `Option` and `Result`.
- `NumText`: digit text, thousands grouping, Python's half-even rounding in
  `format`, the `.1f`, `,.0f` and `,.2f` formats, and the numeric-text reading
  used to coerce table cells. Each format is proved to read back to its value
  within its rounding.
- `Dates`: the ISO date text kept in a draft, with its reader, and the
  `DD-Mon-YYYY` text printed in the report.
- `Records`: the project and team-member records and the defaults.
- `Recalc`: the in-place recompute of the project table, on an `array`, proved
  against the function `Recalculated`, and the list commands.
- `Aggregate`: the summary figures.
- `Render`: validation, the charges row, page size, the comments default, and
  the texts of every table row. `CreateReport` builds the report with loops.
- `Draft`: the working state as a value, the snapshot encoder `Encode`, and
  the field-by-field reader `Load`.
- `Sessions`: the class `Session`. It holds the mutable working state, and its
  methods are the app's commands, each proved against the functions above.

Values are exact reals. Every number format is specified as Python's `format`
applied to the exact value.

Two behaviours of the code are worth stating outright:

- Reading a draft. `load_autosave` (app.py:218-235) has no error handling. It
  assigns the fields one by one, so a missing required key raises after the
  earlier fields are already overwritten. `Draft.Load` returns the state
  reached and an `ok` flag, and `Draft.StoppedReadKeepsEarlierFields` shows
  the partial update.
- Removing a project. Remove Last Project (app.py:590-593) only pops the final
  entry and does not renumber. The numbering stays consistent anyway
  (`Recalc.CommandsKeepWellFormed`).

## Model

| member | source | states |
|---|---|---|
| NumText.Digits | app.py:292 | the decimal text of a count is non-empty digits with no leading zero except for 0 |
| NumText.ParseDigits | app.py:292 | the decimal text of n reads back as n |
| NumText.DigitsOfParse | app.py:292 | every canonical digit string is the text of the number it reads as, so the text form is unique |
| NumText.Grouped | app.py:294-295 | the grouped numeral has a comma exactly at every fourth position from the right and digits elsewhere |
| NumText.UngroupedIsDigits | app.py:294-295 | removing the separators from a grouped numeral gives the plain digits of the number |
| NumText.GroupedReadsBack | app.py:294-295 | a grouped numeral, separators removed, reads back as the number it was made from |
| NumText.RoundHalfEven | app.py:294-297 | the rounded integer is within one half of the value, and ties go to the even neighbour, as Python's `format` rounds |
| NumText.RoundedMagnitude | app.py:294-297 | the rounded magnitude is within one half of the scaled absolute value |
| NumText.DigitRun | app.py:242-243 | the leading digit run of a text is all digits and stops at the first non-digit |
| NumText.ParseNumberOfDigits | app.py:242-243 | a digit text coerces to its numeric value |
| NumText.ParseSigned | app.py:242-243 | a leading minus sign negates the reading, and no sign leaves it unchanged |
| NumText.ParseUnsignedPoint | app.py:242-243 | a text of digits, a point and digits reads as the integer part plus the fraction |
| NumText.ParseNumber | app.py:242-243 | empty text does not read as a number; a reading is not positive after a leading minus and not negative otherwise |
| NumText.ParseUnsigned | app.py:242-243 | unsigned text reads only when it starts with a digit, and its value is not negative |
| NumText.WholeGrouped | app.py:294-295 | the `,.0f` text is non-empty, starts with a minus exactly when the value is negative, and ends in a digit |
| NumText.Fixed1 | app.py:296-297 | the `.1f` text starts with a minus exactly when the value is negative, and ends in a point and one digit |
| NumText.Fixed2Grouped | app.py:443-447 | the `,.2f` text has at least four characters and starts with a minus exactly when the value is negative |
| NumText.Fixed1Denotes | app.py:296-297 | the `.1f` text of x reads back as a number within 0.05 of x |
| NumText.Fixed2Denotes | app.py:443-447 | the `,.2f` text of x, separators removed, reads back within 0.005 of x |
| NumText.WholeGroupedDenotes | app.py:294-295 | the `,.0f` text of x, separators removed, reads back within 0.5 of x |
| NumText.WholeGroupedOfNat | app.py:294-295 | a whole amount prints as its grouped digits, with no sign |
| NumText.GroupedExample | app.py:294-295 | 1234567 prints as "1,234,567" |
| Dates.DaysInMonth | app.py:227 | every month has 28 to 31 days |
| Dates.IsoDate | app.py:204 | the stored date text has ten characters, with dashes at positions 4 and 7 |
| Dates.ParseIsoDate | app.py:227 | reading a date text only ever yields a real calendar date |
| Dates.IsoDateRoundTrip | app.py:204-227 | reading the stored text of a date gives the date back |
| Dates.ParseIsoDateExact | app.py:204-227 | every text that reads as a date is exactly that date's stored text |
| Dates.DayMonthYear | app.py:673 | the printed date has the shape DD-Mon-YYYY, with the month's three-letter abbreviation in the middle |
| Dates.DayMonthYearInjective | app.py:673 | different dates never print alike |
| Dates.DateExample | app.py:204 | 5 March 2026 is stored as "2026-03-05" and printed as "05-Mar-2026" |
| Recalc.Coerce | app.py:242-243 | a numeric cell keeps its value; a parsable text cell takes its parsed value; an unparsable or empty cell becomes 0 |
| Recalc.Recalculated | app.py:241-246 | the recomputed list has the same length and consistent derived fields (balance = 100 - disbursed, numbers 1..N); only the four recomputed columns change; disbursed and completion are the coerced values |
| Recalc.RecalcProjects | app.py:241-246 | the in-place recompute, one column pass after another, leaves exactly the recomputed list in the array |
| Recalc.RecalcFixpoint | app.py:241-246 | the recompute leaves a list unchanged exactly when its derived fields are already consistent |
| Recalc.RecalcIdempotent | app.py:241-246 | recomputing twice gives the same list as recomputing once |
| Recalc.NoClamping | app.py:244 | nothing bounds the disbursed percentage: at 150 the balance is -50 |
| Recalc.NewProject | app.py:584-588 | the added project has consistent derived fields at the next position |
| Recalc.DropLast | app.py:590-593 | removing the last element shortens a non-empty list by one, keeps a prefix, and leaves an empty list empty |
| Recalc.AddThenRemove | app.py:584-593 | adding a project and then removing the last one restores the list |
| Recalc.CommandsKeepWellFormed | app.py:584-593 | adding or removing a project keeps a consistent list consistent |
| Recalc.RecalcAfterAdd | app.py:578-588 | recomputing after an addition gives the recomputed list followed by the new project, unchanged |
| Aggregate.CountCompleted | app.py:651 | the completed count is at most the number of projects; it is zero exactly when none is complete, and equals the total exactly when all are |
| Aggregate.Summarize | app.py:650-665 | the total is the list length, completed is the completed count, completed plus in progress is the total, and the rate is the completion rate of those two, between 0 and 100; each money total is the plain sum plus the charges amount exactly when the rider is on; the balance is contract minus disbursed, and the rider cancels out of it |
| Aggregate.CountCompletedExact | app.py:651 | the completed count equals the number of positions whose project has completion of at least 100 |
| Aggregate.SummaryCompletedExact | app.py:651 | the summary's completed figure is the number of positions whose project is complete |
| Aggregate.CompletionRate | app.py:653 | the rate is 0 for an empty list; otherwise rate times total equals completed times 100; it is always within 0..100 |
| Aggregate.TotalsNotNegative | app.py:655-656 | with no negative approved cost or contract sum, the approved and contract totals are not negative |
| Aggregate.SumsOfConcat | app.py:650-658 | every count and sum over a concatenation is the sum of the counts and sums over its parts |
| Aggregate.DisbursedWithinContract | app.py:657 | a project with disbursed between 0 and 100 and a non-negative contract sum has a disbursed amount between 0 and its contract sum |
| Aggregate.BalanceNotNegative | app.py:656-685 | with every disbursed percentage within 0..100 (the editor's bounds) and contract sums not negative, the disbursed total is within 0..contract total and the balance is never negative, with the rider on or off |
| Aggregate.SummaryExample | app.py:650-665 | two projects, half and fully disbursed and one of them complete, without the rider: totals 3000/3000/2500, balance 500, rate 50 |
| Render.ValidationErrors | app.py:714-723 | no message exactly when the name, the location and the project list are all present; each message is present exactly when its field is missing |
| Render.CommentsOrDefault | app.py:734 | the printed comments are never empty; the officer's comments are printed when given, and "No comments provided" otherwise |
| Render.PageSize | app.py:279 | the page is A4 landscape exactly for "Landscape", and A4 for every other value |
| Render.RiderRow | app.py:743-754 | the charges row is fully disbursed, with no balance, fully complete, and costs equal to the charges amount |
| Render.PdfProjects | app.py:737-754 | the printed list is the project list, followed by the charges row exactly when the rider is on; numeric rows stay numeric |
| Render.CreateReport | app.py:277-317 | every project and team row is the cell texts of its entry, numbered by position from 1; header, summary, approval block and page size are filled from the inputs |
| Render.ProjectRowCells | app.py:283-304 | a project row has the twelve cells of the table, and its first cell reads back as the row's position |
| Render.TeamRowCells | app.py:308-317 | a team row has four cells, and its first cell reads back as the row's position |
| Render.SummaryTexts | app.py:439-447 | the summary block has eight texts, and the first two read back as the project and completed counts exactly |
| Render.MoneyDenotes | app.py:294-295 | a whole-naira amount text reads back within 0.5 |
| Render.MoneyCentsDenotes | app.py:444-447 | an amount text with kobo reads back within 0.005 |
| Render.PercentDenotes | app.py:296-297 | a percentage text reads back within 0.05 |
| Render.ProjectRowDenotes | app.py:283-304 | a project row carries its position as the row number and the project's texts verbatim; its amounts and percentages read back to the project's values within the rounding of their formats |
| Render.SummaryTextsDenote | app.py:439-447 | the summary texts read back as the counts exactly, and as the rate and the money figures within the rounding of their formats |
| Render.MoneyExample | app.py:294 | 1234567 prints as the naira sign followed by "1,234,567" |
| Render.RiderRowMatchesRider | app.py:660-665 | summing the printed list, charges row included, gives the same money totals and balance as the session list with the rider; it has one more project, and that one counts as completed |
| Draft.InitialState | app.py:174-193 | a new session has one default project, the rider off, the default charges amount, landscape orientation, and no draft read |
| Draft.Encode | app.py:198-213 | the snapshot of any state can be read back |
| Draft.EncodeKeys | app.py:199-213 | the snapshot holds exactly the ten required keys and the three optional ones |
| Draft.Load | app.py:218-235 | a read never stores anything but a real calendar date as the inspection date, and without the project list it fails before it changes anything |
| Draft.LoadSucceedsIff | app.py:218-235 | reading succeeds exactly when every required key holds a value of its kind and each optional key that is present holds one too |
| Draft.LoadReadable | app.py:218-235 | reading a readable snapshot sets every field to what the snapshot describes, with the defaults for absent optional keys |
| Draft.LoadForgetsPriorState | app.py:218-235 | a successful read does not depend on the state it started from |
| Draft.RoundTrip | app.py:198-235 | reading a saved snapshot restores the state it was made from and records its save time |
| Draft.DecodedEncode | app.py:198-235 | the state a snapshot describes is the state it was made from, stamped with the save time |
| Draft.DecodedWithout | app.py:229-234 | dropping the charges amount or the orientation from a readable snapshot leaves it readable, and only that field changes, to its default |
| Draft.MissingAmountDefaults | app.py:229 | a snapshot without the charges amount reads as 215013.00 and is otherwise restored |
| Draft.MissingOrientationDefaults | app.py:234 | a snapshot without the orientation reads as "Landscape" and is otherwise restored |
| Draft.MissingRequiredKeyFails | app.py:223-233 | a snapshot lacking any required key cannot be read |
| Draft.StoppedReadKeepsEarlierFields | app.py:223-224 | a read that stops at the institution name has already replaced the projects |
| Draft.StartupLoadsOnce | app.py:237-238 | once a draft with a save time has been read, a later startup does not read it again |
| Draft.FreshSessionLoads | app.py:237-238 | a new session that finds a draft reads it |
| Sessions.Session.constructor | app.py:174-193 | a new session is the initial state for the given year and date, and its inspection date is a real calendar date |
| Sessions.Session.EditProjects | app.py:578-580 | a non-empty edited table is recomputed in place and becomes the project list; an empty one changes nothing |
| Sessions.Session.AddProject | app.py:584-588 | the project list gains the new project at the end, and nothing else changes |
| Sessions.Session.RemoveLastProject | app.py:590-593 | the last project is dropped, if there is one, and nothing else changes |
| Sessions.Session.AddTeamMember | app.py:620-623 | a blank team member is appended, and nothing else changes |
| Sessions.Session.RemoveLastTeamMember | app.py:624-627 | the last team member is dropped, if there is one, and nothing else changes |
| Sessions.Session.Autosave | app.py:198-213 | the snapshot written is the encoding of the session, and it can be read back |
| Sessions.Session.LoadAutosave | app.py:218-235 | the session's new state and the success flag are those of `Load` on the old state, and the inspection date stays a real calendar date |
| Sessions.Session.RestoreOnStartup | app.py:237-238 | a draft is read exactly when the file exists and no draft has been read yet; otherwise nothing changes |
| Sessions.Session.ComputeSummary | app.py:649-665 | the figures are the summary of the session's list with its rider setting |
| Sessions.Session.PrepareReport | app.py:714-754 | the report is refused with the validation messages exactly when they are not empty; otherwise it is laid out from the printed list (charges row included when the rider is on), the team, the approval block with the comments default, the dates in print form, and the summary of the session's own list |

## Left out

- The Streamlit page is not modelled: widgets, CSS, `st.rerun`, `reset_all` and the layout of `main`. Editing team-member names through text inputs is not modelled either.
- The logo, the HTML markup around the cell texts, and the WeasyPrint rendering are not modelled. `generate_pdf` catching a renderer failure is not modelled either. `PrepareReport` ends at the laid-out report texts.
- The Excel export is not modelled.
- File I/O is not modelled: `Autosave` returns the snapshot, and `LoadAutosave` and `RestoreOnStartup` take it, together with whether the file exists, as parameters. JSON encoding is not modelled. The current time and date enter as parameters.
- Values are exact reals. The binary rounding of floats is not modelled, and neither are NaN in the cost columns or Python's `-0` printing of a float that is exactly negative zero. Negative values in (-0.5, 0) do print with a minus sign.
- Recalc.Coerce: numeric text is read as an optional sign, then digits, optionally followed by a point and digits. Other forms that `pd.to_numeric` accepts read as 0 here: exponents, surrounding whitespace, "inf", a leading point (".5") and a trailing point ("5.", which `pd.to_numeric` reads as 5.0 and the model as 0).
- Draft.Load: a value of the wrong JSON type under a key counts as a failed read. In the source, such a value is assigned, or later raises somewhere else.
- Dates.ParseIsoDate: only the `YYYY-MM-DD` form of `fromisoformat` is read.
- Dates.IsoDate: years below 1000 are padded to four digits. `strftime("%Y")` may not pad them on every platform.
- Render.CreateReport: the model requires the disbursed, balance and completion cells to be numbers. The source's `float()` of a text cell, and the failure path when that raises, are not modelled. The list is always recomputed before it is printed.
- Aggregate.Summarize: the model requires the disbursed and completion cells to be numbers. The comparison and arithmetic on text cells would raise in the source.
- Draft.State: the unused `generated_reports` list is not modelled.
