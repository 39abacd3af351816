# Statement reconciliation, modelled in Dafny

This project models the computational core of a script that reconciles bank
statements into one report. For each statement, the script takes the text
extracted from the PDF and does three things:

- finds the statement period `for <date> to <date>`;
- collects every `balance on <date> $<amount>` line;
- keeps the amount of the first line dated on the period's last day.

Over all statements, it sums those balances and keeps the least start date and
the greatest end date. It then writes two cells: the period as
`"<start> to <end>"` and the total as `"$1,234.56"`.

The model works on the extracted text as a `string`. Amounts are integer
cents. There is no regex engine. Both patterns are deterministic at a given
position, because every greedy run is followed in the pattern by a character
outside its class, so backtracking cannot produce a second match. So each
pattern is a matcher that returns where a match starting at a given position
ends. `re.search` and `re.findall` are scans
over those matchers. Every matcher is proved equal to a declarative
reference: a date is `word + " " + day + ", " + year`, and a match is a
literal occurrence of the rendered text.

Modules, in dependency order:

- `Chars`: the ASCII character classes and the value of a decimal numeral.
- `LexOrder`: Python's `<` on `str`.
- `Patterns`: the date and amount sub-patterns.
- `Scan`: `findall` over any matcher.
- `PeriodSearch`: the period pattern and `re.search`.
- `BalanceScan`: the balance pattern and `re.findall`.
- `Money`: reading `$1,234.56` as cents and formatting it back.
- `Statement`: the per-statement result.
- `Calendar` and `DateOrder`: the two orders on date strings.
- `Reconcile`: the aggregation loop.
- `Report`: the two cells, and what reading them back gives.
- `Chronology`: the finding below.

The aggregation loop is modelled once, with the date order as a parameter:

- `Textual` is the code as written (Python string comparison).
- `Chronological` is the corrected order (calendar day first).

Every fold lemma in `Reconcile` and `Report` holds for both orders.

The script never validates dates, never compares them as calendar days, and reads no sign; the model does the same:

- Dates stay strings and are never calendar-validated. "February 30, 2024" is
  accepted.
- The amount pattern has no sign, so a balance is never negative.
- Start and end are compared as text, not as calendar dates. This is the
  finding below.
- Nothing checks that a statement's start comes before its end.

## Model

| member | source | states |
|---|---|---|
| Patterns.RunEnd | google_sheets.py:129 | A greedy `\w+` or `[\d,]+` run ends at the first character outside its class, and every character before that is in the class |
| Patterns.RunEndUnique | google_sheets.py:129 | A run of the class that ends at a character outside it is the greedy run, so backtracking cannot give a second match |
| Patterns.MatchDate | google_sheets.py:129 | `\w+ \d{1,2}, \d{4}` tried at one position: a match is non-empty and stays inside the text. `Patterns.MatchDateSound` and `Patterns.MatchDateComplete` make its matches exactly the dates that start there |
| Patterns.MatchDateSound | google_sheets.py:129 | What the date matcher consumes at a position is a date: a word, a space, one or two digits, a comma and space, four digits |
| Patterns.MatchDateComplete | google_sheets.py:129 | Every date that occurs at a position is found there, and the match ends exactly where that date ends |
| Patterns.MatchDateShape | google_sheets.py:129 | A matched date is a word, a space, one or two day digits, `, ` and four year digits, in that order |
| Patterns.MatchAmount | google_sheets.py:141 | `\$[\d,]+\.\d{2}` tried at one position: a match is non-empty and stays inside the text. `Patterns.MatchAmountSound` and `Patterns.MatchAmountComplete` make its matches exactly the amounts that start there |
| Patterns.MatchAmountSound | google_sheets.py:141 | What the amount matcher consumes is `$`, digits and commas, `.`, and two digits |
| Patterns.MatchAmountComplete | google_sheets.py:141 | Every such amount that occurs at a position is found there in full |
| PeriodSearch.MatchPeriodAt | google_sheets.py:129 | The period pattern tried at one position: both captured groups of a match are dates. `PeriodSearch.MatchPeriodAtSpec` makes it match exactly where `for <date> to <date>` occurs |
| PeriodSearch.MatchPeriodAtSpec | google_sheets.py:129 | The period matcher returns groups `p` at a position exactly when `for <p.start> to <p.end>` occurs there with both parts dates, so at most one pair of groups exists per position |
| PeriodSearch.MatchPeriodAtSound | google_sheets.py:129 | A period match is an occurrence of `for <date> to <date>` with the captured dates |
| PeriodSearch.MatchPeriodAtComplete | google_sheets.py:129 | Every occurrence of `for <date> to <date>` is found with exactly those two dates |
| PeriodSearch.MatchPeriodAtNone | google_sheets.py:129 | The matcher fails at a position exactly when no period occurs there |
| PeriodSearch.LeftmostFrom | google_sheets.py:130 | The position found is the first one from `from` on where the pattern matches; every earlier position fails |
| PeriodSearch.Search | google_sheets.py:130-137 | Both captured groups of a found period are dates |
| PeriodSearch.SearchNone | google_sheets.py:130-134 | `re.search` finds nothing exactly when no period occurs anywhere in the text |
| PeriodSearch.SearchLeftmost | google_sheets.py:129-137 | `re.search` returns `p` exactly when `p` is the period at the leftmost position where the whole pattern matches, not just where the first `for ` occurs |
| Scan.FindAllFrom | google_sheets.py:142 | Every hit is a match at its position, from the start position on, and each hit ends at or before the next one starts |
| Scan.FindAllFromFirst | google_sheets.py:142 | No match starts before the first hit; with no hits, no match starts anywhere |
| Scan.FindAllFromBetween | google_sheets.py:142 | No match starts between the end of one hit and the start of the next |
| Scan.FindAllFromLast | google_sheets.py:142 | No match starts after the end of the last hit |
| BalanceScan.MatchLineAt | google_sheets.py:141 | The balance pattern tried at one position: a match starts there, is non-empty and stays inside the text, its first group is a date and its second an amount. `BalanceScan.MatchLineAtSound` and `BalanceScan.MatchLineAtComplete` make it match exactly the balance lines there |
| BalanceScan.MatchLineAtSound | google_sheets.py:141 | A balance match is an occurrence of `balance on <date> <amount>` with the captured groups, and ends where it ends |
| BalanceScan.MatchLineAtComplete | google_sheets.py:141 | Every occurrence of `balance on <date> <amount>` is found with exactly those groups |
| BalanceScan.MatchLineAtNone | google_sheets.py:141 | The matcher fails at a position exactly when no balance line occurs there |
| BalanceScan.LineMatcher | google_sheets.py:141-142 | The balance pattern is a matcher in the sense `findall` needs: non-empty matches that stay inside the text |
| BalanceScan.FindAll | google_sheets.py:142 | The `(date, amount)` list `re.findall` returns: one pair per hit of the scan, in document order. `BalanceScan.HitsAreLines`, `BalanceScan.HitsMissNothing` and `BalanceScan.FindAllEmpty` make the hits exactly the non-overlapping balance lines |
| BalanceScan.HitsAreLines | google_sheets.py:141-142 | Every `findall` hit is an occurrence of a balance line at its position, ending where that line ends |
| BalanceScan.HitsMissNothing | google_sheets.py:142 | No balance line starts before the first hit, between consecutive hits, or after the last hit: `findall`'s left-to-right, non-overlapping scan |
| BalanceScan.FindAllSound | google_sheets.py:142 | Each `(date, amount)` that `findall` returns occurs in the text as a balance line |
| BalanceScan.FindAllEmpty | google_sheets.py:142-146 | `findall` returns no pairs exactly when no balance line occurs anywhere |
| Money.Remove | google_sheets.py:153 | `replace(c, "")` leaves no `c` and never lengthens the string. `Money.RemoveMultiset` and `Money.RemoveConcat` pin it down: every other character is kept, as often as it occurs and in order |
| Money.RemoveMultiset | google_sheets.py:153 | `replace(c, "")` takes out every `c` and keeps every other character exactly as often as it occurs |
| Money.RemoveConcat | google_sheets.py:153 | `replace(c, "")` acts piecewise on a concatenation |
| Money.Strip | google_sheets.py:153 | The two `replace` calls: no comma is left and the text never grows. `Money.StripAmount` gives the full shape for a matched amount |
| Money.DecimalCents | google_sheets.py:153 | `float()` of a `D*.DD` numeral in exact cents: the dollars are the value of the digits before `.`, and the cents the value of the two after it |
| Money.StripAmount | google_sheets.py:153 | Stripping `$` and `,` from a matched amount leaves the integer digits without commas, then `.` and two digits, which is the shape `float()` gets |
| Money.AmountCents | google_sheets.py:153 | The converted amount is never negative; its dollars are the digits between `$` and `.` without commas, and its cents are the two digits after `.` |
| Money.FormatCents | google_sheets.py:210 | `f"${total:,.2f}"`: `$` first, `-` second exactly when the value is negative, and `.` before the last two characters. `Money.FormatRoundTrip` shows the amount pattern reads a non-negative value back |
| Money.Digits | google_sheets.py:210 | The decimal digits of `n`, without leading zeros, read back as `n` |
| Money.Group | google_sheets.py:210 | The `,` grouping puts a comma before every third digit from the right and nowhere else; in particular a non-empty result never starts with a comma |
| Money.UngroupGroup | google_sheets.py:210 | Removing the commas from a grouped numeral gives back the ungrouped digits |
| Money.Cents2 | google_sheets.py:210 | The `.2f` cents are two digits that read back as the cents |
| Money.FormatPieces | google_sheets.py:210 | A formatted non-negative total is `$`, the grouped dollars, `.`, and the two cents digits |
| Money.FormatRoundTrip | google_sheets.py:210 | A non-negative total, formatted as `${:,.2f}`, matches the amount pattern and converts back to the same value |
| Money.FormatNegativeUnreadable | google_sheets.py:210 | A negative total formats as `$-…`, which the amount pattern cannot match |
| Money.FormatInjective | google_sheets.py:210 | Distinct non-negative totals format to distinct cells |
| Statement.FirstDatedFrom | google_sheets.py:149-154 | The loop with `break` picks the first line dated `end_date`; every earlier line has another date |
| Statement.TripleOf | google_sheets.py:134-159 | The returned `(start, end, balance)`: start and end are set exactly when a period was found, and then hold its dates; the balance is set exactly when a closing balance was extracted |
| Statement.TripleForgetsReason | google_sheets.py:134-159 | Two extractions give the same triple exactly when they are equal or differ only in why no balance was found |
| Statement.Extract | google_sheets.py:128-159 | Whenever a period is returned, both its dates are dates; a returned balance is never negative |
| Statement.ExtractPeriodNotFound | google_sheets.py:130-134 | The result is `(None, None, None)` exactly when no period occurs anywhere in the text |
| Statement.ExtractPeriod | google_sheets.py:136-137 | Otherwise start and end are the groups of the leftmost period match |
| Statement.ExtractNoBalanceLines | google_sheets.py:142-146 | With a period but no balance line anywhere, the result is `(start, end, None)` |
| Statement.ExtractNoClosingBalance | google_sheets.py:149-159 | With balance lines but none dated `end_date`, the period is still returned and the balance is absent |
| Statement.ExtractClosingBalance | google_sheets.py:148-154 | A balance is returned exactly when some balance line is dated `end_date` character for character. It is the amount of the first such line in document order, and later lines with the same date are ignored |
| LexOrder.Less | google_sheets.py:177-180 | Python's `<` on `str`: a string is never less than itself. `LexOrder.LessIsDiffersBelow` equates it with the textbook lexicographic order |
| LexOrder.LessIsDiffersBelow | google_sheets.py:177-180 | Python's `<` on strings is the textbook lexicographic order: a proper prefix, or a smaller character at the first difference |
| LexOrder.Irreflexive | google_sheets.py:177-180 | No string is less than itself |
| LexOrder.Transitive | google_sheets.py:177-180 | String `<` is transitive |
| LexOrder.Connected | google_sheets.py:177-180 | Any two different strings are ordered one way or the other |
| LexOrder.Asymmetric | google_sheets.py:177-180 | `a < b` rules out `b < a` |
| LexOrder.AntisymmetricLessEq | google_sheets.py:177-180 | `<=` both ways means equal, so the least and greatest strings are unique |
| Calendar.MonthNumber | google_sheets.py:170 | 1 to 12 exactly for the twelve English month names, in calendar order; 0 for any other word |
| Calendar.DayOf | google_sheets.py:170 | A string that reads as a day at all reads as a month between 1 and 12 and a day below 100 |
| Calendar.DayOfParts | google_sheets.py:170 | A date built from a month name, a day and a year reads back as exactly that day |
| Calendar.NumBound | google_sheets.py:170 | `n` digits denote less than 10^n; this gives `Calendar.DayOf` its day bound below 100, which the corrected order relies on |
| Calendar.DateKey | google_sheets.py:170 | The `yyyymmdd` key is 0 exactly for strings that name no day |
| Calendar.DateKeyChronological | google_sheets.py:170 | Comparing keys compares the calendar days the strings name, and equal keys mean the same day |
| Calendar.KeyOrder | google_sheets.py:170 | For valid months and days, the `yyyymmdd` number orders days chronologically |
| DateOrder.BeforeIrreflexive | google_sheets.py:177-180 | Under either order, no date string comes before itself |
| DateOrder.BeforeTransitive | google_sheets.py:177-180 | Under either order, "comes before" is transitive |
| DateOrder.BeforeConnected | google_sheets.py:177-180 | Under either order, any two different strings are ordered one way or the other |
| DateOrder.NotAfterAntisymmetric | google_sheets.py:177-180 | Under either order, a least or greatest element is unique |
| DateOrder.ChronologicalFollowsCalendar | google_sheets.py:170 | Under the chronological order, the string naming the earlier calendar day comes first |
| Reconcile.ComparableTo | google_sheets.py:177-180 | Any date can be compared with the current global start or end when it is set |
| Reconcile.Step | google_sheets.py:174-180 | A file without a balance leaves the summary unchanged. Otherwise the total grows by its balance, the start becomes whichever of the old start and the file's start comes first, and the end whichever comes last |
| Reconcile.TotalOf | google_sheets.py:176 | The `+=` over the files: a file without a balance adds nothing, so with no balance at all the total stays 0 |
| Reconcile.TotalOfConcat | google_sheets.py:176 | The sum over two runs of files is the sum of their sums |
| Reconcile.DatesSnoc | google_sheets.py:174-180 | One more file adds its dates to the candidates only when it has a balance |
| Reconcile.StepKeepsSummary | google_sheets.py:174-180 | Each iteration keeps the loop invariant: the total is the sum so far, and start and end are the least and greatest dates so far |
| Reconcile.Fold | google_sheets.py:165-180 | After the loop, the total is the sum of all non-`None` balances. Start and end are the least start and greatest end among the files that produced a balance, and each is `None` exactly when there are none |
| Reconcile.NoneWhenNothingExtracted | google_sheets.py:165-180 | Start and end stay `None` exactly when no file produced a balance, and they are `None` together |
| Reconcile.LeastUnique | google_sheets.py:177-178 | The least start is unique, so the summary depends only on the set of start dates |
| Reconcile.GreatestUnique | google_sheets.py:179-180 | The greatest end is unique |
| Reconcile.TotalOfRemove | google_sheets.py:176 | Taking one file out of the list takes its balance out of the total |
| Reconcile.MultisetRemove | google_sheets.py:170 | Removing one position from the file list removes one occurrence of that file; this is the step `Reconcile.TotalOfPermutation` takes to show the sort does not matter |
| Reconcile.TotalOfPermutation | google_sheets.py:170-176 | The total does not depend on the order the files are processed in |
| Reconcile.FoldPermutation | google_sheets.py:170 | The whole summary does not depend on the processing order, so the sort by file name only fixes an order |
| Reconcile.FoldIgnoresUnextracted | google_sheets.py:174 | Adding a file without a balance leaves the summary unchanged, even when its period was found |
| Report.ExtractAll | google_sheets.py:170-172 | One extraction per statement text, in processing order |
| Report.PeriodCell | google_sheets.py:209 | `f"{global_start_date} to {global_end_date}"`: with both dates set, `for ` followed by the cell is the text the period pattern renders for them. `Report.PeriodCellReadsBack` shows that text is found again |
| Report.BalanceCell | google_sheets.py:210 | `f"${total_balance:,.2f}"`: a non-negative total gives a cell that the amount pattern accepts and reads back as the same total |
| Report.Rows | google_sheets.py:208-211 | The two rows written to the sheet, labelled "Entire Period Analyzed" and "Global Final Balance". A non-negative total reads back from the second |
| Report.PeriodCellReadsBack | google_sheets.py:209 | The period cell, written after `for `, is found again by the period pattern with the same two dates |
| Report.BalanceCellReadsBack | google_sheets.py:210 | The balance cell, written after `balance on <date> `, is matched by the balance pattern and converts back to the same total |
| Report.TotalOfNonNegative | google_sheets.py:176 | A sum of non-negative balances is non-negative |
| Report.ExtractedFilesWellFormed | google_sheets.py:172 | Every file that produced a balance has a non-negative one and two well-formed dates |
| Report.FoldDatesFromFiles | google_sheets.py:177-180 | The global start and end are dates, and each is the start or end that some file with a balance reported |
| Report.ReportTotalReadsBack | google_sheets.py:210 | The reported total is non-negative, and the amount pattern reads it back exactly |
| Report.ReportPeriodReadsBack | google_sheets.py:209 | Once some file produced a balance, both dates are set and the period cell reads back as the same two dates |
| Report.StatementsReportReadsBack | google_sheets.py:172-210 | End to end, from statement texts to the report: the total is non-negative and reads back exactly. Start and end are set together, and when set, the period cell reads back as those dates |
| Chronology.TextualOrderReversesPeriod | google_sheets.py:177-180 | As written, January and February 2024 statements report the period "February 1, 2024 to January 31, 2024" |
| Chronology.ChronologicalOrderKeepsPeriod | google_sheets.py:170 | With the corrected order, the same two statements give start "January 1, 2024" and end "February 29, 2024" |
| Chronology.ChronologicalFoldSpansCalendar | google_sheets.py:170 | With the corrected order, the global start names no later day than any file's start, and the global end no earlier day than any file's end |

## Left out

- Google authentication, Drive and Sheets clients, folder listing, downloads and spreadsheet creation (google_sheets.py:3-109, 186-224): network I/O and foreign libraries. `Report.Rows` gives the two rows that are written.
- PDF text extraction with `pdfplumber` and the joining of pages (google_sheets.py:124-126): the model takes the extracted text as a `string`.
- Directory listing, path joins and the `.pdf` filter (google_sheets.py:162, 171): the model takes the per-file results, or the statement texts, as a sequence in processing order.
- The sort by file name (google_sheets.py:170) is not modelled. `Reconcile.FoldPermutation` shows the result does not depend on the order.
- The `print` diagnostics (google_sheets.py:133, 138, 145, 157): they have no effect on the results.
- Floating point (google_sheets.py:153, 165, 176): amounts and the total are exact integer cents, with no binary rounding.
- Money.AmountCents: models `float()` only on the `D*.DD` shape that the amount pattern lets through. An empty integer part, as in `$,.00`, reads as 0, as `float(".00")` does.
- Unicode: `\w` is modelled as ASCII letters, digits and `_`, and `\d` as ASCII digits. Python's `str` patterns also accept other Unicode letters and digits.
- Money.Strip: its own contract says only that no comma is left and the text does not grow. That the `$` is gone as well, and the exact shape that remains, is stated by `Money.StripAmount` for the matched amounts it is applied to.
- Statement.Extract: the script returns the same `(start, end, None)` for "no balance lines" and "none on the end date". The model keeps them as two cases, and `Statement.TripleOf` maps both to that tuple.
- Calendar.DayOf: does not check the day against the month length ("February 30" reads as day 30). It only serves the corrected order; the code does no calendar validation.

## Findings

| source | as written | input that shows it | evidently intended | confidence | as-written member | corrected member |
|---|---|---|---|---|---|---|
| google_sheets.py:177-180 | The global start and end are the least and greatest `"Month D, YYYY"` strings under Python's string `<` and `>`, which sort by month name alphabetically | Two statements, `for January 1, 2024 to January 31, 2024` and `for February 1, 2024 to February 29, 2024`, each with its closing balance: the report says "February 1, 2024 to January 31, 2024" | The calendar-earliest start and calendar-latest end: the comment at google_sheets.py:170 speaks of "chronological order" | high (not executed) | Chronology.TextualOrderReversesPeriod | Chronology.ChronologicalFoldSpansCalendar |

The corrected order is `DateOrder.Chronological`. It compares the `yyyymmdd` key of the day a string names, and uses the text only to break ties. `Reconcile.Fold` takes the order as a parameter. Every property of the fold and the report is proved for the corrected order as well as the as-written one, and `Chronology.ChronologicalOrderKeepsPeriod` evaluates the corrected fold on the same two statements.
