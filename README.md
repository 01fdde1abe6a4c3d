# Lottery customer ticket reconciliation — a verified Dafny model

This project models the ticket reconciliation engine of the lottery
customer tracker: the browser script `customer/app.js` and the history
page `customer/reports.js`. A retailer records, for each customer and
each SEM value (the number of copies sold per ticket), the tickets the
customer took, written as ranges such as `32180-32189, A1B, 40001`. The
retailer also records the tickets the customer returned unsold. The
engine then does the following:

- expands the purchase text into the set of purchased tickets;
- reconciles the unsold list against that set;
- derives the sold list and compresses it back into ranges;
- matches sold tickets against the winning suffixes of a draw and prices
  each match from the PWT, VC and SVC tables;
- totals rows per customer and per report;
- saves a report under a key built from its date and draw time;
- on the history page, turns each saved report into a history entry,
  groups entries by date, summarises them and looks up the entry behind
  a clicked button.

The model has one Dafny module per concern:

| module | file | models |
|---|---|---|
| `JsText` | js_text.dfy | the JavaScript string primitives the engine relies on: `trim`, `split`/`join`, `String(n)`, `padStart`, `parseInt` |
| `Ordered` | ordered.dfy | JavaScript `Set` insertion order, as duplicate-free sequences |
| `TicketCodec` | ticket_codec.dfy | `parseAlphanumericTicket` / `formatAlphanumericTicket` |
| `RangeExpansion` | range_expansion.dfy | the purchase-text expansion in `updateRowData`, the count-only recount in `calculateCustomerSummary`, and the ticket-search copy |
| `TicketExtraction` | ticket_extraction.dfy | `extractTicketsFromRanges` |
| `Reconciliation` | reconciliation.dfy | the unsold de-duplication and back-filling, the valid/invalid flags, and the sold partition |
| `Compression` | compression.dfy | `compressNumberList` |
| `RoundTrip` | round_trip.dfy | the purchase-text expansion followed by `compressNumberList`: a range comes back as itself |
| `Amounts` | amounts.dfy | `toLocaleString('en-IN')` digit grouping, and the `parseInt(item.split(' ')[0].replace(/,/g, ''))` read-back of breakdown lines |
| `Prizes` | prizes.dfy | the prize tables, the winning-suffix map, and suffix matching with SEM-scaled amounts |
| `Table` | table.dfy | the row list (`tableData`) as a class, and `updateRowData` as a whole |
| `Aggregation` | aggregation.dfy | `getGroupedData`, `calculateCustomerSummary`, the totals loop of `renderSummaryRow`, and `calculateReportSummary` |
| `Display` | display.dfy | `getNumericDisplay` and `formatSoldNumbersForPopup` |
| `PurchaseInput` | purchase_input.dfy | the text rewrite of `formatPurchaseInput` |
| `Reports` | reports.dfy | `getReportKey`, `getDailyCustomersKey`, `parseReportKey`, and what `saveReport` writes, including the (name, SEM) merge of the daily customer list |
| `History` | history.dfy | `loadCustomerReportsData` and its 32-bit string hash |
| `HistoryView` | history_view.dfy | date grouping, the overall summary, and the click lookup of `customer/reports.js` |

Code that works by mutation is modelled as methods with loops, proved
against specification functions. This covers the expansion loop, the
unsold back-fill, the compression walk, the map building, prize
matching, the summary loops, the grouping loop, the daily-customer
merge, the history loader and the summary counting. The row list is a
class whose methods `push`, `splice` and `filter` a `seq` field.

Pure code, such as the codec, the report keys and the hash, is modelled
as functions. The properties are lemmas about those functions.

The model follows the code where it departs from what a reader might
expect, and proves those cases explicitly:

- A digit-free range such as `abc-xyz` adds the single ticket `000`.
- PWT entries are pushed even when the amount is 0.
- `winningTickets` is de-duplicated, but the breakdowns are not.
- An empty purchased set leaves the unsold list untouched.
- The search copy of the expansion pads with the left endpoint's width.
- A range `a-b` expands and compresses back to `a-b` only when `a < b`.
  When `a == b` the walk closes a run of one number, so the result is
  the bare ticket `a`, not `a-a`. The round trip is proved for a prefix
  and a suffix that keep each endpoint one trimmed piece: the prefix does
  not end in a digit, the suffix has no digit, neither holds a hyphen or
  a comma, and both numbers fit the padding.

## Model

| member | source | states |
|---|---|---|
| JsText.TrimSpec | customer/app.js:818 | `trim` returns a contiguous slice of its input, has no leading or trailing JS whitespace, and is idempotent |
| JsText.TrimmedFixed | customer/app.js:818 | trimming a string that is already trimmed changes nothing |
| JsText.JoinSplit | customer/app.js:818 | joining the pieces of `split(sep)` with `sep` gives back the original string |
| JsText.SplitJoin | customer/app.js:818 | splitting a join of separator-free pieces gives back the pieces |
| JsText.SplitAppend | customer/app.js:818 | splitting `a + sep + b` gives the pieces of `a` followed by those of `b` |
| JsText.SplitHasSep | customer/app.js:822 | a string containing the separator splits into at least two pieces |
| JsText.PaddedDigits | customer/app.js:93 | `String(n).padStart(w, '0')` of a digit string's value, padded to the string's length, gives the digit string back |
| JsText.PaddedValue | customer/app.js:93 | a zero-padded decimal rendering consists of digits and reads back as the number |
| JsText.CanonicalDigits | customer/app.js:93 | a digit string without a leading zero is exactly `String` of its value |
| JsText.ParseIntToString | customer/app.js:87-88 | `parseInt(String(i), 10)` is `i` for every integer, negative included |
| JsText.ParseIntNoDigits | customer/app.js:88-89 | `parseInt` of a digit-free string is NaN, and `parseInt(..) \|\| 0` is 0 |
| Ordered.AddAllSpec | customer/app.js:834-836 | adding elements one by one to a `Set` keeps it duplicate-free, keeps the old members first and in place, and holds exactly the old members and the added ones |
| Ordered.DedupSpec | customer/app.js:857 | `[...new Set(xs)]` has no duplicates, the same members, is no longer than `xs`, and is `xs` itself when `xs` has no duplicates |
| Ordered.NoDupsCard | customer/reports.js:250 | a duplicate-free list has as many elements as the set of its members |
| TicketCodec.ParseTicketSpec | customer/app.js:85-90 | a ticket matching `^(.*?)(\d+)(\D*)$` splits into a prefix not ending in a digit, the last maximal digit run, and a digit-free suffix; a digit-free string parses to `0` with padding equal to its length and empty prefix and suffix |
| TicketCodec.FormatTicketSpec | customer/app.js:92-94 | formatting keeps the prefix and suffix, ends the middle with the decimal number, and pads to at least `padding` characters without truncating |
| TicketCodec.DecompositionUnique | customer/app.js:87 | the regex's split of a ticket is unique: the digit run is the last maximal one |
| TicketCodec.FormatParse | customer/app.js:85-94 | `format(parse(t)) == t` for every ticket the regex matches |
| TicketCodec.ParseFormat | customer/app.js:85-94 | parsing a formatted ticket gives back its parts, with the padding widened to the number's own width |
| TicketCodec.ParseFormatParse | customer/app.js:85-94 | parse after format after parse equals parse, digit-free tickets included |
| TicketCodec.DigitFreeFormat | customer/app.js:88-89 | a non-empty digit-free ticket formats back as a run of zeros of its length |
| TicketCodec.ParseDigitsOnly | customer/app.js:87 | a pure digit string parses to its value with padding equal to its length |
| RangeExpansion.Segments | customer/app.js:818 | the comma pieces of the purchase text are trimmed and non-empty |
| RangeExpansion.RangeTickets | customer/app.js:832-836 | the tickets of a range number `to - from + 1` when `to >= from`, and none otherwise |
| RangeExpansion.RangeTicketsAll | customer/app.js:832-836 | the i-th ticket of a range is the left endpoint's prefix and suffix around `from + i`, padded |
| RangeExpansion.ExpandPurchases | customer/app.js:817-842 | the expansion loop yields the purchased set and the ticket count of the specification |
| RangeExpansion.ExpandSegment | customer/app.js:822-841 | one segment adds its tickets to the set and its count to the total |
| RangeExpansion.AddRange | customer/app.js:834-836 | the set after the loop is the set before, extended by every ticket of the family numbered `lo` to `hi` in ascending order, each ticket already present left where it was |
| RangeExpansion.SegmentCountTickets | customer/app.js:823-841 | a segment's count is the number of tickets it lists, duplicates included |
| RangeExpansion.CountAllTickets | customer/app.js:817-842 | `numberOfTickets` is the number of tickets listed over all segments |
| RangeExpansion.PurchasedSpec | customer/app.js:817-842 | the purchased set has no duplicates, holds exactly the tickets some segment lists, and is no larger than the ticket count |
| RangeExpansion.SingleSegment | customer/app.js:838-841 | a hyphen-free segment adds itself and counts 1 |
| RangeExpansion.RangeSegment | customer/app.js:822-837 | a two-part segment counts `to - from + 1` when `to >= from` and 0 otherwise, and lists the range from the left number to the right one in the left endpoint's prefix and suffix, padded to the larger padding |
| RangeExpansion.ManyHyphens | customer/app.js:823 | a segment with three or more hyphen parts adds nothing |
| RangeExpansion.DigitFreeRange | customer/app.js:88-89 | a range of digit-free endpoints adds one all-zero ticket as wide as the wider endpoint and counts 1 |
| RangeExpansion.DigitFreeExample | customer/app.js:832-835 | `abc-xyz` adds `000` and counts 1 |
| RangeExpansion.SegmentsAppend | customer/app.js:818 | the segments of `x,y` are those of `x` followed by those of `y` |
| RangeExpansion.ExpandOrderIndependent | customer/app.js:817-844 | swapping two comma groups keeps the purchased members and the ticket count |
| RangeExpansion.RecountTickets | customer/app.js:416-431 | the summary recount loop gives the same count as the expansion in `updateRowData` |
| RangeExpansion.RecountSegments | customer/app.js:418-430 | the recount over a segment list is the sum of the segment counts |
| RangeExpansion.SearchPurchaseSet | customer/app.js:1508-1525 | the search loop yields the de-duplicated tickets of the search expansion |
| RangeExpansion.SearchSegment | customer/app.js:1510-1524 | one search segment adds its tickets to the set |
| RangeExpansion.SearchAgreesWhenLeftWider | customer/app.js:1519 | the search expansion agrees with the main one whenever the left endpoint's padding is at least the right's |
| RangeExpansion.SearchDiffersOnWiderRight | customer/app.js:1519 | on `8-12` the main expansion starts at `08` but the search copy starts at `8` |
| TicketExtraction.ExtractTicketsFromRanges | customer/app.js:685-717 | the extraction loop yields the concatenated tickets of every segment |
| TicketExtraction.ExtractFromRange | customer/app.js:689-713 | one segment appends its extracted tickets |
| TicketExtraction.ExtractFromPair | customer/app.js:693-708 | a two-part segment appends the tickets between its endpoints |
| TicketExtraction.AppendRange | customer/app.js:703-706 | the list after the loop is the list before followed by every ticket of the family numbered `lo` to `hi`, in ascending order |
| TicketExtraction.DigitsOnly | customer/app.js:699 | removing non-digits leaves only digits and never lengthens |
| TicketExtraction.ParseDigitString | customer/app.js:699-700 | `parseInt` of a digit string is its value, and NaN for the empty string |
| TicketExtraction.SegmentOfPair | customer/app.js:690-694 | a one-hyphen segment is extracted as the pair of its trimmed sides |
| TicketExtraction.PairOfDigits | customer/app.js:696-707 | equal-width digit endpoints list the numbers between them, padded to that width |
| TicketExtraction.AgreesOnEqualWidthDigits | customer/app.js:696-707 | on equal-width digit ranges the extraction agrees with the main expansion |
| TicketExtraction.RejectsUnequalWidths | customer/app.js:696 | endpoints of different lengths extract nothing |
| TicketExtraction.SuffixDuplicated | customer/app.js:697-698 | on `A1B-A3B` the first extracted ticket is `A1B1B`, with the suffix repeated |
| TicketExtraction.CorrectedStartsAtStart | customer/app.js:697-705 | the corrected extraction of an equal-width range lists `to - from + 1` tickets of the start's family and starts with the start ticket itself |
| TicketExtraction.CorrectedA1B | customer/app.js:697-705 | the corrected extraction of `A1B-A3B` lists three tickets and starts with `A1B` |
| Reconciliation.KeepInSpec | customer/app.js:880 | keeping the entries found in the purchased set keeps exactly those, in order |
| Reconciliation.DropInSpec | customer/app.js:882 | dropping the entries already listed keeps exactly the others, in order, without creating duplicates |
| Reconciliation.BackfillLoop | customer/app.js:859-870 | the back-fill loop appends purchased tickets not yet listed, in purchase order, until the duplicates are used up or the candidates run out |
| Reconciliation.BackfillSpec | customer/app.js:859-870 | the back-fill result is the unique list followed by the first `n` unlisted purchased tickets |
| Reconciliation.ReconcileUnsold | customer/app.js:855-882 | the reconciliation method yields the unsold list, the flags and the sold list of the specification |
| Reconciliation.UnsoldNumbersSpec | customer/app.js:855-872 | the unsold list is the de-duplicated raw list followed by back-filled purchased tickets; it has no duplicates and is never longer than what was typed |
| Reconciliation.TakeSpec | customer/app.js:862-869 | back-filled candidates come from the list and keep it duplicate-free |
| Reconciliation.SoldPartition | customer/app.js:874-882 | every purchased ticket is sold or a valid unsold ticket, the two are disjoint, and the sold list has no duplicates |
| Reconciliation.SoldCount | customer/app.js:880-882 | the sold count and the valid unsold count add up to the purchased count |
| Compression.InsertSpec | customer/app.js:150 | inserting into a sorted list keeps it sorted and adds exactly the element |
| Compression.SortSpec | customer/app.js:150 | the numeric sort yields a sorted permutation |
| Compression.SortFirst | customer/app.js:150-152 | the stable sort puts first the earliest of the minimal tickets, whose prefix, padding and suffix label every run |
| Compression.FirstMin | customer/app.js:150-152 | the chosen index holds a minimal value and no earlier element has it |
| Compression.WalkFlatten | customer/app.js:154-169 | the closed runs of the walk and the open run cover the input, in order |
| Compression.RunsSpec | customer/app.js:154-169 | for strictly increasing numbers, the runs cover the input exactly and are separated by gaps, so they are maximal |
| Compression.CompressNumberList | customer/app.js:148-171 | the compression method yields the specified labels |
| Compression.CompressSorted | customer/app.js:152-170 | the walk over sorted tickets labels the maximal runs of their numbers |
| Compression.CompressedSpec | customer/app.js:148-171 | an empty list compresses to `[]` and nothing else does; otherwise the output labels the runs of the sorted numbers, in the smallest element's family |
| Compression.CompressedRuns | customer/app.js:148-171 | for distinct numbers, the runs are ascending, maximal, and their total size is the input length |
| Compression.CompressedSorted | customer/app.js:148-171 | an already sorted input is labelled in its own order |
| Compression.SortedDistinct | customer/app.js:150 | distinct numbers sort into a strictly increasing sequence |
| Compression.CompressExample | customer/app.js:148-171 | `32180, 32182, 32183, 32184` compresses to `32180` and `32182-32184` |
| RoundTrip.PlainTicket | customer/app.js:92-94 | a ticket formatted in a plain family is non-empty, has no white space at its ends, and holds no hyphen or comma, so it stays one range endpoint |
| RoundTrip.RangeText | customer/app.js:818-836 | `a-b` written in a plain family is one segment, and that segment lists the tickets from `a` to `b` in the family |
| RoundTrip.RangeDistinct | customer/app.js:834-836 | the tickets a range adds are pairwise distinct, because each parses back to its own number, so the set keeps all of them |
| RoundTrip.ExpandedRange | customer/app.js:817-842 | the purchased set of `a-b` is exactly the tickets `a` to `b` in ascending order |
| RoundTrip.RangeFirst | customer/app.js:85-94 | the first ticket of the range parses back to `a` with the family's own prefix, padding and suffix |
| RoundTrip.WalkInterval | customer/app.js:154-158 | walking consecutive numbers extends one open run from the first to the last and closes none |
| RoundTrip.RunsInterval | customer/app.js:154-169 | consecutive numbers form exactly one run |
| RoundTrip.CompressedRange | customer/app.js:148-171 | the tickets `a` to `b` compress to the single label of the run from `a` to `b`, in their own family |
| RoundTrip.CompressExpandedRange | customer/app.js:148-171 | expanding `a-b` and compressing the result gives back `[a-b]` when `a < b` and the bare `[a]` when `a == b` |
| RoundTrip.RoundTripExample | customer/app.js:148-171 | `32180-32184` expands to five tickets that compress back to `32180-32184` |
| Amounts.GroupIndianDigits | customer/app.js:900 | removing the commas from the en-IN grouping gives back the digits |
| Amounts.EnInDigits | customer/app.js:900 | en-IN rendering without commas is `String(n)`, and contains no space |
| Amounts.ParseAmountOf | customer/app.js:444 | reading back a breakdown line that starts with an en-IN amount gives that amount |
| Amounts.EnInLakh | customer/app.js:900 | 100000 renders as `1,00,000` |
| Amounts.SumAmountsAppend | customer/app.js:443-453 | the total of two breakdown lists is the sum of their totals |
| Prizes.Amount | customer/app.js:3-23 | a table amount is positive exactly for the first five prize categories |
| Prizes.MapSet | customer/app.js:233 | setting a key adds it once, at the end if new, and changes only that key |
| Prizes.WinningSuffix | customer/app.js:231 | the ticket number taken from a listed piece is digits only |
| Prizes.BuildWinningMap | customer/app.js:226-236 | the map-building loop yields the specified winning map |
| Prizes.AddListed | customer/app.js:230-234 | one result's numbers are all set to its prize |
| Prizes.SetAllSpec | customer/app.js:230-234 | after setting several keys, those keys map to the prize and all others keep theirs |
| Prizes.WinningMapKeys | customer/app.js:226-236 | the map's keys are the listed suffixes, de-duplicated in first-listing order, each non-empty and all digits |
| Prizes.WinningMapUnlisted | customer/app.js:226-236 | a suffix no result lists is absent from the map |
| Prizes.WinningMapLast | customer/app.js:226-236 | a suffix listed under several results keeps the last result's prize |
| Prizes.MatchAll | customer/app.js:885-916 | every match has one PWT entry, and at most one VC and one SVC entry |
| Prizes.MatchPrizes | customer/app.js:885-916 | the matching loop yields the specified matches and breakdowns |
| Prizes.MatchOne | customer/app.js:893-914 | one sold ticket adds its matches and keeps the breakdowns consistent with the details |
| Prizes.MatchesForSpec | customer/app.js:894-896 | a sold ticket matches exactly the map entries whose suffix it ends with, with their category |
| Prizes.MatchesForOnce | customer/app.js:894-896 | one sold ticket matches each map key at most once |
| Prizes.MatchesSpec | customer/app.js:893-914 | the matches are exactly the pairs of a sold ticket and a winning suffix it ends with |
| Prizes.NoWinners | customer/app.js:891 | nothing matches against an empty map |
| Prizes.BreakdownLength | customer/app.js:899-912 | PWT has an entry per match, even at amount 0; VC and SVC have one only where the table is positive |
| Prizes.BreakdownSpec | customer/app.js:899-912 | each breakdown line shows the table amount times SEM for its category and ticket, and reads back as that amount |
| Prizes.BreakdownTotal | customer/app.js:899-912 | a tier's breakdown total is SEM times the sum of the table amounts |
| Prizes.PushesKnown | customer/app.js:903-911 | VC and SVC entries are pushed exactly for the categories with a positive PWT amount |
| Prizes.CollectWinners | customer/app.js:917-919 | the winner loop yields the specified unique winners |
| Prizes.UniqueWinnersOrder | customer/app.js:917-919 | `winningTickets` lists each matched suffix once, in first-match order |
| Prizes.UniqueWinnersFirst | customer/app.js:917-919 | each kept winner is the first match of its suffix |
| Prizes.LookupKeys | customer/app.js:894 | a key has a value exactly when it is one of the map's keys |
| Table.SemRows | customer/app.js:1433-1436 | adding a customer makes one empty row per SEM value, in order |
| Table.CustomerTable.AddNewRow | customer/app.js:928-932 | one empty row for the name and SEM is appended, and the current customer is set |
| Table.CustomerTable.AddCustomer | customer/app.js:1430-1437 | a missing or blank name adds nothing; otherwise the trimmed name gets four rows, one per SEM, and becomes the current customer |
| Table.CustomerTable.DeleteSemRow | customer/app.js:348-354 | `splice(index, 1)` removes one row, with negative indexes counted from the end |
| Table.CustomerTable.DeleteCustomer | customer/app.js:358-364 | every row of the name is removed and the others keep their order |
| Table.CustomerTable.UpdateRowData | customer/app.js:813-926 | the row at the index is recomputed and the rest of the table is unchanged; an index out of range changes nothing |
| Table.UpdateRow | customer/app.js:813-926 | the update method yields the specified updated row |
| Table.UpdatedRowCount | customer/app.js:844 | an update keeps the row's identity and inputs, and sets `purchaseCount` to the ticket count times `parseInt(sem) \|\| 0` |
| Table.UpdatedRowNothingPurchased | customer/app.js:847-853 | with nothing purchased, the sold, range, winning and breakdown lists are cleared and the unsold list is unchanged |
| Table.UpdatedRowPartition | customer/app.js:855-883 | sold and valid unsold split the purchased set, each unsold entry is flagged valid exactly when purchased, and the sold ranges compress the sold list |
| Table.UpdatedRowPrizes | customer/app.js:885-919 | the winning tickets are the de-duplicated matched suffixes, with one PWT entry per match |
| Table.RemoveAtSpec | customer/app.js:350 | `splice` removes exactly the element at the normalised index and nothing else |
| Table.WithoutNameSpec | customer/app.js:360 | the filter keeps exactly the rows of other names |
| Table.WithoutNameAppend | customer/app.js:360 | filtering a concatenation filters each part and keeps their order |
| Table.WithoutNameAbsent | customer/app.js:360 | deleting a customer without rows changes nothing |
| Table.AddThenDelete | customer/app.js:360 | deleting a customer just added restores the table when the name was absent |
| Table.WithoutNameGone | customer/app.js:360 | deleting the name of every row empties the list |
| Aggregation.SumBreakdown | customer/app.js:443-453 | the breakdown loop sums the amounts read back from each line |
| Aggregation.CalculateCustomerSummary | customer/app.js:404-458 | the summary loop yields the sum of the rows' totals, recounting purchases from the purchase text |
| Aggregation.RenderSummaryTotals | customer/app.js:575-599 | the total-row loop yields the sum of the rows' stored purchase counts and breakdowns |
| Aggregation.CalculateReportSummary | customer/app.js:123-146 | a missing report gives all zeros; otherwise the totals over its rows |
| Aggregation.Groups | customer/app.js:384-388 | group `i` holds run `i`'s rows, the name of its first row and the customer summary of those rows |
| Aggregation.GetGroupedData | customer/app.js:373-402 | grouping yields one group per maximal run of same-name rows, with its summary |
| Aggregation.SplitRuns | customer/app.js:376-397 | the grouping loop splits the rows into the specified runs |
| Aggregation.GroupRuns | customer/app.js:376-397 | there are no runs exactly when there are no rows, and no run is empty |
| Aggregation.GroupRunsConcat | customer/app.js:376-397 | the runs concatenate back to the original rows |
| Aggregation.GroupRunsSame | customer/app.js:376-397 | all rows of a run share the run's name |
| Aggregation.GroupRunsMaximal | customer/app.js:376-397 | neighbouring runs have different names, so runs are maximal |
| Aggregation.GroupSummariesAdd | customer/app.js:373-458 | the group summaries add up to the summary of all rows |
| Aggregation.AgreeingTotals | customer/app.js:416-432 | when each row's stored count matches its recount, the customer summary equals the total row |
| Aggregation.UpdatedCountsAgree | customer/app.js:844 | every updated row's stored purchase count matches the summary recount |
| Aggregation.SummariesMatchTotalRow | customer/app.js:575-599 | on updated rows, the group summaries add up to the totals of the summary table's footer |
| Aggregation.ReportMatchesTotalRow | customer/app.js:123-146 | the report summary's PWT, VC, SVC and purchase totals equal the footer totals |
| Display.NumericDisplay | customer/app.js:96-103 | the display is empty exactly when the ticket is |
| Display.NumericDisplayRange | customer/app.js:98-99 | a range shows the left digits padded to the right's width, a hyphen, and the right digits |
| Display.NumericDisplaySingle | customer/app.js:100-101 | a single ticket shows its digit run |
| Display.NumericDisplayShape | customer/app.js:96-103 | a digit-free ticket is shown unchanged; otherwise the display is digits, or digits, a hyphen and digits |
| Display.FormatSoldNumbersForPopup | customer/app.js:105-116 | the popup loop yields the specified lines |
| Display.ChunksSpec | customer/app.js:108-115 | the chunks concatenate back to the sold list, every chunk but the last holds exactly 7 numbers, and the number of lines is the ceiling of the count over 7 |
| Display.LinesStep | customer/app.js:108-115 | each line displays the next 7 numbers |
| PurchaseInput.Clean | customer/app.js:722 | cleaning keeps only digits, commas and hyphens and never lengthens |
| PurchaseInput.CleanSpec | customer/app.js:722 | cleaning leaves allowed text unchanged and keeps every digit |
| PurchaseInput.FormatPurchaseValue | customer/app.js:720-802 | the formatting loop yields the specified rewrite |
| PurchaseInput.PushRange | customer/app.js:729-798 | one comma piece contributes its formatted pieces |
| PurchaseInput.PushExtra | customer/app.js:748-765 | digits after a complete range are chunked into further ranges |
| PurchaseInput.PushChunks | customer/app.js:782-791 | a run of digits is cut into chunks of ten, each becoming a range of two five-digit halves, with a final five as an open range |
| PurchaseInput.FormatAllowed | customer/app.js:720-802 | the rewritten text holds only digits, commas and hyphens |
| PurchaseInput.FormatDigits | customer/app.js:720-802 | when no piece has two hyphens, the rewrite keeps exactly the typed digits, in order |
| PurchaseInput.TenDigits | customer/app.js:775-779 | ten typed digits become a range of two five-digit halves |
| PurchaseInput.FiveDigits | customer/app.js:773-774 | five typed digits get a trailing hyphen |
| PurchaseInput.CompleteRange | customer/app.js:738-741 | a complete five-digit range is left as it is |
| PurchaseInput.SecondHyphenDrops | customer/app.js:733-741 | text after a second hyphen in a range is dropped |
| PurchaseInput.SingleRange | customer/app.js:725-802 | comma-free text is formatted as one range piece |
| Reports.ReportKeyParts | customer/app.js:181-183 | a report key splits on `_` into the prefix, the date's parts and the draw time's parts |
| Reports.ParseReportKeyRoundTrip | customer/app.js:181-195 | parsing a report key gives back its date and draw time exactly when neither holds `_`, and fails otherwise |
| Reports.SplitSingle | customer/app.js:190-191 | a string splits into one piece exactly when it lacks the separator |
| Reports.MergeDailyCustomers | customer/app.js:969-991 | the merge loop yields the specified daily customer list |
| Reports.AddEach | customer/app.js:972-977 | the stored customers are merged one by one |
| Reports.AddEachRow | customer/app.js:979-984 | the report's rows are merged one by one |
| Reports.PushPairs | customer/app.js:986-990 | each name's SEMs are flattened into (name, SEM) pairs |
| Reports.AddSemHas | customer/app.js:972-984 | after adding a pair, the map has exactly the old pairs and the new one |
| Reports.AddSemsHas | customer/app.js:972-984 | after merging a list, the map has exactly the old pairs and the list's |
| Reports.AddSemsNames | customer/app.js:972-984 | names keep their first-insertion order and the map stays well formed |
| Reports.FlattenNoDups | customer/app.js:986-990 | flattening a well-formed map gives no duplicate pair |
| Reports.DailyCustomersSpec | customer/app.js:969-991 | the daily list has no duplicates, holds exactly the stored and the report's (name, SEM) pairs, and orders names by first appearance |
| Reports.SaveReportSpec | customer/app.js:935-997 | a report is saved exactly when its date, draw time (not `Unknown`) and rows are present; its key parses back; the daily list is the duplicate-free merge |
| History.SplitKeyReportKey | customer/reports.js:25-28 | a saved report key is a customer key, and splits back into its date and time exactly when the date holds no `_` |
| History.Hash | customer/reports.js:33 | the id lies in the signed 32-bit range |
| History.HashIsPoly | customer/reports.js:33 | the id is the 32-bit wrap of the polynomial `sum 31^(n-1-i) * code(i)` of the key's characters |
| History.LoadCustomerReportsData | customer/reports.js:10-77 | the loader loop yields the specified entries |
| History.BuildEntry | customer/reports.js:17-68 | one stored key and value yield the specified entry or none |
| History.AddLabels | customer/reports.js:50-54 | a row's winning tickets with a truthy ticket are added as `ticket (name)` labels |
| History.NameListSpec | customer/reports.js:45-47 | the names hold exactly the names of object rows, `Unknown` for a falsy one, and are non-empty exactly when an object row exists |
| History.LabelListSpec | customer/reports.js:45-57 | the labels are exactly `ticket (name)` for each truthy ticket of an object row |
| History.LabelListNonEmpty | customer/reports.js:49-55 | there is a label exactly when some object row has a winning ticket with a truthy ticket |
| History.CustomerEntryDefined | customer/reports.js:19-58 | an entry exists exactly when the data is an array, the key has at least three parts, and some row is an object |
| History.CustomerEntryShape | customer/reports.js:25-39 | an entry's id is the key's hash, its date and time come from the key, it is marked as a customer entry and has one prize list |
| History.CustomerEntryPrizes | customer/reports.js:60-66 | the one prize list is non-empty and duplicate-free; it is the winning list exactly when a winning ticket exists and holds the labels, and otherwise it holds the names |
| History.NonObjectIgnored | customer/reports.js:46 | a non-object row does not change the entry |
| History.CustomerItemsSpec | customer/reports.js:10-12 | only stored items with the customer key prefix are read |
| History.CustomerReportsSpec | customer/reports.js:10-77 | the loaded entries are exactly those of prefixed items that yield one, at most one per item, all marked as customer entries |
| HistoryView.StrLessTotal | customer/reports.js:125 | JS string comparison is a strict total order (with StrLessIrreflexive and StrLessTransitive) |
| HistoryView.StrLessIrreflexive | customer/reports.js:125 | no string is less than itself |
| HistoryView.StrLessTransitive | customer/reports.js:125 | string comparison is transitive |
| HistoryView.SortDescSpec | customer/reports.js:125 | `.sort().reverse()` of distinct dates is strictly descending and a permutation |
| HistoryView.InsertDescSpec | customer/reports.js:125 | inserting a new date keeps the order descending and adds exactly that date |
| HistoryView.DrawsOnSpec | customer/reports.js:116-123 | the group of a date holds every draw of that date, as often as in the history, and no other draw |
| HistoryView.DateListSpec | customer/reports.js:116-123 | the grouped dates are exactly the dates of the draws |
| HistoryView.SortedDatesSpec | customer/reports.js:116-125 | the sorted dates are strictly descending and are exactly the draws' dates |
| HistoryView.GroupByDate | customer/reports.js:116-125 | the grouping loop yields a map whose keys are the sorted dates, each holding that date's draws in order |
| HistoryView.FirstMax | customer/reports.js:252 | the chosen key has the maximal count, and every earlier key has a smaller one |
| HistoryView.TimeKeysSpec | customer/reports.js:238-242 | the counted times are distinct and are exactly the draws' times |
| HistoryView.CountMapSpec | customer/reports.js:238-242 | the tally holds exactly the draws' times, each with its number of draws |
| HistoryView.MostCommonTimeSpec | customer/reports.js:252 | the most common time is `N/A` with no draws; otherwise it is the first time with the maximal count, or `N/A` when that time is empty |
| HistoryView.DistinctCount | customer/reports.js:250 | the size of `new Set(allNumbers)` is the number of distinct strings |
| HistoryView.CountDraws | customer/reports.js:237-248 | the counting loop yields all prize numbers, the time keys in first-seen order, and the tally |
| HistoryView.PushPrizeNumbers | customer/reports.js:245-247 | a draw's prize lists are appended to the numbers |
| HistoryView.OverallSummary | customer/reports.js:226-252 | there is no summary exactly when both sources are empty; otherwise `totalDraws = ocrDraws + customerDraws`, the distinct numbers are counted, and the most common time is chosen as specified |
| HistoryView.FindDraw | customer/reports.js:210 | `find` fails exactly when no draw has the id, and otherwise returns the first draw with it |
| HistoryView.FindDrawAppend | customer/reports.js:209-210 | searching a concatenation searches the first list before the second |
| HistoryView.ClickSearchesOcrFirst | customer/reports.js:200-210 | the click parses the id and searches OCR history before customer reports |
| HistoryView.ClickFindsDraw | customer/reports.js:198-210 | a button for any listed draw finds a draw with that id at or before it, and exactly that draw when ids are distinct |

## Left out

- The DOM, rendering, event wiring and modals are presentation, not logic. This covers `renderTable`, the summary and report cards, `displayPrizeResults`, `openResultsPopup`, `getTruncatedText`, `getCategoryClass` and the other CSS-class helpers.
- Cursor positioning in `formatPurchaseInput` (customer/app.js:808-810) is presentation.
- `localStorage` reads and writes are left out, and stored data is a parameter of the model. This covers `loadData` and its pick of a draft, `loadAndRenderReportCards`, the clear-reports handler, `deleteAllData` and `loadAndRenderReports`. The winning map is built from an already parsed result list. `JSON.parse` is replaced by the `Stored` datatype, either an array of rows or anything else.
- `saveReport`'s fallback chain for the date and draw time (customer/app.js:937-939) depends on `new Date()` and on DOM inputs. `Reports.SaveReport` takes the resolved date and draw time.
- Image, PDF, share and popup export wrap foreign libraries and float page arithmetic (customer/app.js:1096-1427).
- `parsePrizeAmount` (customer/app.js:197-217) uses floating point and is never called.
- `prompt`, `confirm` and `alert` are interaction, and only the list operations behind them are modelled. `autoCompleteUnsoldInput` is entirely interactive.
- Strings are sequences of Dafny characters, not UTF-16 code units. The char codes in the hash, the string order and `split('')` agree with JavaScript except for characters outside the Basic Multilingual Plane.
- Integers are unbounded. `parseInt` imprecision above 2^53 is not modelled. The 32-bit wrap of the id hash is modelled explicitly.
- JavaScript objects list integer-like keys first, in numeric order. The model keeps insertion order for `timeCounts`, `drawsByDate` and the prize map, so `HistoryView.MostCommonTimeSpec` picks the first time in insertion order. For times that look like array indexes the browser would look at those first.
- A date named like an `Object.prototype` member (for example `constructor`) would make the `acc[date]` test in the date grouping misbehave. The model treats every date as absent until it is added.
- Prizes.Amount: a category named like an `Object.prototype` member (for example `constructor`) gets the amount 0, like any other unknown category. The source looks the category up in plain objects (customer/app.js:899, 902, 908). For such a name the lookup finds an inherited function, so the PWT entry would read `NaN` and the VC and SVC entries would be skipped.
- HistoryView.MostCommonTime: a draw time named like an `Object.prototype` member (for example `toString`) is counted like any other time. In the source the `timeCounts` lookup (customer/reports.js:242) would find an inherited function, and the count would become string concatenation.
- Row names, tickets, SEM values and times are strings, and only the empty string is falsy. `null`, `undefined` and non-string values stored in rows are not modelled.
- Draw ids are integers. An OCR history entry with a non-integer id would never match the parsed click id, and that case is not modelled.
- `toLocaleString('en-IN')` is modelled for integers only. Fractions do not occur, because amounts are integer table values times an integer SEM.
- Prizes.BreakdownSpec: a negative SEM with a category outside the tables is written `0`. The SEM is `parseInt(…) || 0` (customer/app.js:891), so a stored SEM such as `-5` is kept. JavaScript computes the PWT amount 0 × -5 (customer/app.js:899) as negative zero, which `toLocaleString('en-IN')` writes as `-0`. The model has no negative zero. The totals still agree, because `-0` reads back as 0.
- Aggregation.GetGroupedData: computes each group's summary after splitting the rows, where the source fills the summary row by row. The resulting groups are the same.
- The ticket search outside its expansion copy (customer/app.js:1459-1525, name matching and rendering) is left out. Only its expansion of purchase ranges is modelled.

## Findings

| source | as written | input that shows it | evidently intended | confidence | as-written member | corrected member |
|---|---|---|---|---|---|---|
| customer/app.js:697-698,705 | the prefix is the start ticket with only its trailing digit run removed, so it still ends with the suffix, and the suffix is then appended again | `A1B-A3B` yields `A1B1B`, `A1B2B`, `A1B3B` | `A1B`, `A2B`, `A3B`: the prefix before the digit run, then the padded number, then the suffix | not executed | TicketExtraction.SuffixDuplicated | TicketExtraction.CorrectedStartsAtStart |
