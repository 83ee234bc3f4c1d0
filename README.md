# VPN Invoice — a Dafny model of the invoice generator

The program is a one-page React app. A shop owner uses it to fill in a VPN order:
- the customer's username;
- the purchase date;
- a subscription length from a fixed menu;
- a data plan;
- a main ("Outline") access key and an optional "smart" key.

From these it builds a Markdown-flavoured invoice message. It shows that message in a live preview and copies it to the clipboard once both required fields hold text.

This project models the computing core of `App.tsx` and proves what it promises:

- **Text** (`text.dfy`): the JavaScript string primitives the app relies on. These are `trim`, `startsWith`, `includes`, `split` on a literal separator and `replace(/lit/g, …)`. `Join` is the partner of `Split`.
- **Calendar** (`calendar.dfy`):
  - Gregorian dates and whole-month addition as `Date.setMonth` performs it. A day the target month lacks rolls into the next month; it is not clamped.
  - The ISO `YYYY-MM-DD` text form and its parse.
  - `calculateExpireDate` and `formatDateForDisplay`.
- **Preview** (`preview.dfy`): the live-preview classifier. Each `\n`-separated line becomes one segment: fenced block, inline code, bold, separator or plain text. The first matching rule wins, and odd-numbered pieces are styled.
- **Invoice** (`invoice.dfy`):
  - the shop configuration, the duration menu and the form record;
  - the `generatedMessage` template as a list of lines joined by `\n`.

  The fixed Burmese and emoji text are opaque constants.
- **InvoicePreview** (`invoice_preview.dfy`): what the classifier makes of each line the template writes.
- **FormState** (`form.dfy`): the state updates. These are:
  - the shared input handler and the duration menu;
  - the draft merge over the defaults;
  - the reset;
  - the required-field gate in front of the clipboard write.

  The clock, the confirmation dialog and the outcome of the clipboard write are parameters.

Everything the core does is a pure computation over values. Even the React state setters are record updates (`prev => ({ ...prev, … })`). So the model is written as datatypes, functions and lemmas.

Behaviours of the code that differ from a first reading (the model follows the code):
- January 31 plus one month is March 2 in a leap year (March 3 otherwise), because `setMonth` rolls the missing days over.
- A bold or inline-code line with an odd number of delimiters ends in a *styled* piece, because styling goes by the piece's index.
- The username is interpolated without trimming. Only the empty string gets the `[Username]` placeholder.
- When there is no smart key, its slot in the template still leaves one empty line.
- The main key's fences are on lines of their own. The preview therefore shows two empty fenced blocks, with the key between them as an ordinary line.

## Model

| member | source | states |
|---|---|---|
| Text.TrimStart | App.tsx:163-169 | the result is a suffix of the input that is empty or starts with a non-whitespace character |
| Text.TrimStartDropsWhitespace | App.tsx:163-169 | everything `TrimStart` drops is whitespace, so it keeps the longest suffix not starting with whitespace |
| Text.TrimEnd | App.tsx:163-169 | the result is a prefix of the input that is empty or ends with a non-whitespace character |
| Text.TrimEndDropsWhitespace | App.tsx:163-169 | everything `TrimEnd` drops is whitespace, so it keeps the longest prefix not ending with whitespace |
| Text.Trim | App.tsx:163-169 | `trim()` drops leading, then trailing whitespace; `TrimSpec` states its meaning |
| Text.IsBlank | App.tsx:272-273 | `!s.trim()`; `BlankIffAllWhitespace` states it holds exactly for all-whitespace text |
| Text.StartsWith | App.tsx:544 | `startsWith(p)`; `SegmentLineKinds` and `FenceAtStart` state how the fence rule uses it |
| Text.TrimSpec | App.tsx:163-169 | `trim()` keeps one contiguous slice, drops only whitespace around it, and leaves no whitespace at either end |
| Text.BlankIffAllWhitespace | App.tsx:271-274 | `!s.trim()` holds exactly when every character of `s` is whitespace |
| Text.TrimIdempotent | App.tsx:544 | trimming twice is trimming once |
| Text.Split | App.tsx:75 | `split` returns at least one piece |
| Text.SplitCount | App.tsx:542 | `split(sep)` gives one more piece than there are separator occurrences |
| Text.JoinSplit | App.tsx:542 | joining the pieces of a split with the separator restores the text |
| Text.SplitJoin | App.tsx:542 | splitting a join of separator-free pieces gives those pieces back |
| Text.SplitPiecesFree | App.tsx:555 | no piece of a split contains the separator |
| Text.SplitLeftmost | App.tsx:573 | when no occurrence of the separator starts inside `a`, not even one running into the separator after it, the first piece of `a + d + b` is `a` |
| Text.SplitCutsLeftmost | App.tsx:573 | every piece but the last ends at the leftmost occurrence of the separator: none starts inside it, not even overlapping the separator that ends it |
| Text.SplitUnique | App.tsx:573 | pieces that join back to `s`, with a separator-free last piece and every other piece cut at the leftmost occurrence, are exactly `Split(s, d)` |
| Text.ReplaceAllIsSplitJoin | App.tsx:545 | `replace(/lit/g, rep)` equals splitting on `lit` and joining with `rep` |
| Text.ReplaceAllAvoids | App.tsx:174-177 | a character in neither the input nor the replacement is not in the output |
| Text.ReplaceAll | App.tsx:174-177 | `replace(/lit/g, rep)`; `ReplaceAllIsSplitJoin`, `ReplaceAllAvoids` and `ReplaceAllFirst` state its meaning |
| Text.Contains | App.tsx:554 | `includes(d)`: some position starts an occurrence of `d`; `SplitCount` counts those occurrences |
| Text.Join | App.tsx:179-199 | the lines of a text put back together with a separator; `JoinSplit` and `SplitJoin` make it the inverse of `Split` |
| Text.ReplaceAllFirst | App.tsx:174-177 | the first occurrence is replaced when nothing before it can start one |
| Calendar.DaysInMonth | App.tsx:82 | month lengths are 28 to 31, and 29 exactly for February of a leap year |
| Calendar.DayNumberInjective | App.tsx:82 | distinct valid dates have distinct day numbers |
| Calendar.AddMonths | App.tsx:82 | `setMonth` yields a valid date whose day number is the first of the target month plus the start day minus one |
| Calendar.AddMonthsFields | App.tsx:82 | the month index advances by k with year carry; the day is kept when it fits, and otherwise it overflows by `day - DaysInMonth(target)` (1 to 3 days) into the next month |
| Calendar.AddMonthsIsMakeDay | App.tsx:82 | any valid date with that day number is the result |
| Calendar.AddYear | App.tsx:82 | twelve months later is the same day next year, except for February 29 |
| Calendar.JanuaryEndRollsOver | App.tsx:82 | January 31 plus one month is March 2 in a leap year and March 3 otherwise |
| Calendar.OverflowExamples | App.tsx:82 | 2024-01-31+1 = 2024-03-02, 2023-01-31+1 = 2023-03-03, 2024-03-15+12 = 2025-03-15, 2024-02-29+12 = 2025-03-01 |
| Calendar.NatToString | App.tsx:83-86 | the decimal text of a number is non-empty and all digits |
| Calendar.DigitsRoundTrip | App.tsx:83-86 | reading back the decimal text of n gives n |
| Calendar.NatToStringLength | App.tsx:83 | numbers below 10, 100, 1000 and 10000 print with 1, 2, 3 and 4 digits |
| Calendar.PadStart | App.tsx:84-85 | `padStart(width, fill)` keeps the text as the suffix, fills the front, and is `max(len, width)` long |
| Calendar.TwoDigitsRoundTrip | App.tsx:84-85 | a month or day below 100 pads to two digits that read back as itself |
| Calendar.ParseIsoDate | App.tsx:81 | only a valid date is ever parsed from the text |
| Calendar.ParseFormat | App.tsx:81-86 | the ISO text of a date with a four-digit year parses back to that date |
| Calendar.CalculateExpireDate | App.tsx:79-87 | `calculateExpireDate`; `ExpireDateOfIso`, `DisplayOfInvalid` and `ExpireDateAvoids` state its results |
| Calendar.FormatIsoDate | App.tsx:83-86 | the `${year}-${month}-${day}` text; `ParseFormat` proves it parses back to the date and `IsoDateAvoids` that it holds only digits and dashes |
| Calendar.ExpireDateOfIso | App.tsx:79-87 | the expiry of a well-formed start is the ISO text of `AddMonths(start, k)`; an empty start gives `""` |
| Calendar.FormatDateForDisplay | App.tsx:73-77 | `formatDateForDisplay`; `DisplayReversesFields`, `DisplayOfIso` and `DisplayWithoutDash` state its results |
| Calendar.DisplayReversesFields | App.tsx:73-77 | the three `-`-separated fields come out reversed and `/`-joined; the empty string gives exactly `DD/MM/YYYY` |
| Calendar.DisplayOfIso | App.tsx:73-77 | an ISO date displays as its two-digit day, two-digit month and year |
| Calendar.DisplayOfInvalid | App.tsx:73-87 | an unparseable start date makes the expiry display as `NaN/NaN/NaN` |
| Calendar.DisplayWithoutDash | App.tsx:75-76 | text without `-` displays as `undefined/undefined/<text>` |
| Calendar.DisplayExample | App.tsx:73-77 | `2024-01-05` displays as `05/01/2024` |
| Calendar.DisplayAvoids | App.tsx:73-77 | the display adds no characters except `/` and those of its fixed words |
| Calendar.ExpireDateAvoids | App.tsx:79-87 | the expiry holds only digits, `-` and the letters of `NaN` |
| Preview.SegmentLine | App.tsx:543-587 | the per-line classifier; `SegmentLineKinds`, `StyledSegment` and `FencedContent` state what it produces |
| Preview.SegmentAll | App.tsx:542-588 | the preview of a whole text; `SegmentAllLines` and `SegmentAllJoin` state it |
| Preview.SegmentLineKinds | App.tsx:542-588 | each kind of segment is produced exactly when its rule matches and no earlier rule does; a plain segment is the line itself |
| Preview.StyledRuns | App.tsx:553-581 | the runs of a cut line number delimiters+1 and join back to the line; run i is styled iff i is odd; no run holds the delimiter; every cut is at the leftmost occurrence of the delimiter, which `SplitUnique` shows fixes the runs |
| Preview.StyledSegment | App.tsx:553-581 | an inline-code or bold segment's line holds its delimiter; its runs number delimiters+1 and join back to the line with it; run i is styled iff i is odd; no run holds the delimiter; every cut is at the leftmost occurrence |
| Preview.BoldOpening | App.tsx:572-581 | a line opening with `**` and holding no other `**` and no backtick is bold text: an empty plain run, then everything after the marker in bold |
| Preview.TripleAsterisk | App.tsx:572-581 | the line `***` is bold text with an empty plain run followed by a bold `*` |
| Preview.RemoveFenceComplete | App.tsx:545 | removing every fence token leaves no fence token |
| Preview.FencedContent | App.tsx:543-551 | a fenced segment's content is trimmed and holds no fence token |
| Preview.BareFence | App.tsx:543-551 | a bare fence line is a fenced block with empty content |
| Preview.FenceWrapped | App.tsx:543-551 | a key between fence tokens on one line is one fenced block showing the trimmed key |
| Preview.FenceNeedsBacktick | App.tsx:543 | a fence line holds a backtick |
| Preview.PlainLine | App.tsx:583-588 | a line with no backtick, no `**` and no dash run is shown as it is |
| Preview.SingleBacktickStart | App.tsx:543-553 | a line opening with one backtick is not a fence line |
| Preview.SeparatorRunLine | App.tsx:583-586 | a line with the dash run and no backtick or asterisk is the separator |
| Preview.InlineCodeLine | App.tsx:553-569 | a non-fence line with a backtick is cut on backticks |
| Preview.BoldLine | App.tsx:571-581 | a backtick-free line with `**` is cut on `**` |
| Preview.SegmentAllLines | App.tsx:542 | the preview has one segment per line, in order |
| Preview.SegmentAllJoin | App.tsx:542 | previewing newline-free lines joined by `\n` classifies exactly those lines |
| Invoice.DurationMenu | App.tsx:45-51 | `DURATIONS` starts at one month and ends at one year with strictly growing terms, and each label below a year names its months |
| Invoice.ShopConfigPlain | App.tsx:25-34 | no `SHOP_CONFIG` setting holds a line break or a backtick |
| Invoice.GeneratedMessage | App.tsx:158-199 | the invoice text; `MessageBlocks` proves it is the template's concatenation and `MessageSplitsIntoLines` that its lines are `MessageLines` |
| Invoice.ExpireDateRaw | App.tsx:148-153 | the `expireDateRaw` memo; `DateLines` and `DateLinesWithoutDate` state what the expiry line shows |
| Invoice.HasSmartKey | App.tsx:168 | the smart-key condition; `SmartKeySlot` states that the section appears exactly when it holds |
| Invoice.OrElse | App.tsx:181-184 | the fallback from an empty value to its placeholder; `PlaceholderLines` states which of the two each line shows |
| Invoice.MessageLines | App.tsx:179-199 | the message has 24 lines with a smart key and 22 without |
| Invoice.MessageBlocks | App.tsx:163-199 | the line list joined by `\n` is the template: header, main-key part, smart-key section and footer, separated by newlines |
| Invoice.MainKeyPart | App.tsx:163-165 | the main-key block; `MainKeyPartLines` and `MainKeyBlock` state it |
| Invoice.MainKeyPartLines | App.tsx:163-165 | the main-key part is three lines: fence, key text, fence |
| Invoice.SmartKeySection | App.tsx:167-172 | the optional smart-key section; `SmartKeySectionLines` and `SmartKeySlot` state it |
| Invoice.SmartKeySectionLines | App.tsx:167-172 | the smart-key section is a newline, the heading, and the key in backticks |
| Invoice.FormattedHours | App.tsx:174-177 | the three replacements on the hours; `ShopHoursFormatted` and `HoursAvoid` state their result |
| Invoice.ShopHoursFormatted | App.tsx:174-177 | the configured hours show as `6 နာရီ - 10 နာရီ` |
| Invoice.HoursAvoid | App.tsx:174-177 | hour formatting adds no character except those of the hour word |
| Invoice.LinesAvoid | App.tsx:179-199 | a character absent from the fields, the fixed text and the date output is on no line except the code lines |
| Invoice.LinesAreSingle | App.tsx:179-199 | with newline-free fields, no line holds a newline |
| Invoice.MessageSplitsIntoLines | App.tsx:179-199 | splitting the message on `\n` gives back its lines, one more than the newline count |
| Invoice.BacktickLines | App.tsx:163-188 | with backtick-free fields, a line holds a backtick iff it is a main-key fence or the smart-key line |
| Invoice.LinePositions | App.tsx:179-199 | the positions of the header, main-key, smart-key and footer lines |
| Invoice.MainKeyBlock | App.tsx:163-187 | lines 7–10 are the heading, a fence, the key text and a fence; only `""` gives `[MAIN KEY]`; a whitespace-only key gives an empty line; otherwise the trimmed key, non-empty with no whitespace at either end |
| Invoice.SmartKeySlot | App.tsx:167-188 | the section is present iff the trimmed smart key is non-empty; present, it is an empty line, the heading and the backticked trimmed key; absent, it leaves one empty line; the separator follows at line 18 or 16 |
| Invoice.PlaceholderLines | App.tsx:181-184 | an empty username shows `[Username]`, otherwise it is shown untrimmed; an empty data plan shows `0`; both are followed by the fixed text |
| Invoice.DateLines | App.tsx:148-157 | for an ISO purchase date, the date lines show it and its expiry `DURATIONS[idx].months` later, as `DD/MM/YYYY` |
| Invoice.DateLinesWithoutDate | App.tsx:148-157 | an empty purchase date shows `DD/MM/YYYY` twice; an unparseable one shows an expiry of `NaN/NaN/NaN` |
| InvoicePreview.PreviewOfMessage | App.tsx:542-588 | the preview of the message has one segment per message line, each the classification of that line |
| InvoicePreview.PreviewOfMainKey | App.tsx:543-551 | the two fences preview as empty fenced blocks; the key between them is classified alone, and is plain when it has no markup |
| InvoicePreview.InlineCodeKey | App.tsx:553-569 | a backtick-free key between backticks is an empty, a styled and an empty run |
| InvoicePreview.PreviewOfSmartKey | App.tsx:553-569 | a written smart key previews as inline code styling exactly the trimmed key |
| InvoicePreview.PreviewOfSeparator | App.tsx:583-586 | the dash line previews as the separator |
| InvoicePreview.UsernameLineSegment | App.tsx:571-581 | the username line is bold: the label styled, the value plain |
| InvoicePreview.PreviewOfUsername | App.tsx:571-581 | the username line of the message previews as the bold label followed by the value or its placeholder |
| FormState.TodayText | App.tsx:64 | `new Date().toISOString().split('T')[0]`; `InitialState` states that it parses back to today |
| FormState.InitialState | App.tsx:62-69 | the empty form is dated today (its text parses back to today), is on the first duration, and expires one month later |
| FormState.WithField | App.tsx:207 | the named field takes the value and no other field changes |
| FormState.FormExtensionality | App.tsx:53-60 | a form is determined by its five text fields and its duration |
| FormState.HandleInputChange | App.tsx:205-211 | the edited field takes the value and nothing else in the form changes; editing `username` or `outlineKey` clears that flag alone |
| FormState.LastEditWins | App.tsx:205-211 | a second edit of a field replaces the first |
| FormState.EditIdempotent | App.tsx:205-211 | re-sending the same value changes nothing |
| FormState.EditsCommute | App.tsx:205-211 | edits of two different fields commute |
| FormState.SelectDuration | App.tsx:418 | `parseInt` of the option value becomes the duration index; nothing else changes |
| FormState.SelectOption | App.tsx:418-422 | choosing option i selects duration i, and the expiry becomes the purchase date plus that option's months |
| FormState.SaveDraft | App.tsx:135-137 | the saved draft holds every field of the form |
| FormState.RestoreDraft | App.tsx:102-115 | each field of the restored form is the draft's value if present, else the default; no draft gives the defaults |
| FormState.DraftRoundTrip | App.tsx:102-115 | restoring a saved form gives the same form back |
| FormState.EmptyDraftIsDefault | App.tsx:102-115 | a draft without fields restores the empty form dated on the load day |
| FormState.HandleReset | App.tsx:213-225 | when confirmed: the defaults dated today, no flags, not copied, and a success banner; when declined: no change |
| FormState.RequiredFieldErrors | App.tsx:271-274 | each flag is set iff its field is all whitespace |
| FormState.HandleCopy | App.tsx:270-291 | text is written iff both required fields are non-blank and the clipboard accepts; a refusal flags exactly the blank fields, writes nothing and shows an error; the text written is the invoice; the form never changes |
| FormState.CopiedInvoiceIsFilled | App.tsx:271-284 | a copied invoice shows the username as typed and the trimmed, non-empty main key between its fences |
| FormState.FixAndRetry | App.tsx:270-284 | after a refusal, filling both required fields clears both flags and the next copy goes through |
| FormState.CopyAfterReset | App.tsx:213-225 | a copy right after a reset is refused with both flags set, and the invoice shows both placeholders |

## Left out

- JSX rendering, CSS classes, icons, the theme toggle and its persistence: these are presentation only.
- The notification banner's five-second auto-dismiss, and the two-second reset of the copied mark. These are timers. The model records the banner and the mark as each handler sets them.
- `localStorage` and `JSON.parse`: a stored draft is an `Option<Draft>`, where `None` is a missing or unparseable draft. A stored value with fields of the wrong JSON type is not modelled.
- `handlePaste`, with its clipboard read and permission-error messages: an asynchronous browser API.
- The clipboard write in `handleCopy` is a boolean parameter `clipboardAccepts`, and `window.confirm` in `handleReset` is a boolean `confirmed`.
- The clock: "today" is a `Date` parameter. `FormState.TodayText` reuses `FormatIsoDate`, which does not zero-pad the year, so it agrees with `toISOString` only for years 1000–9999. Earlier years, which `toISOString` pads to four digits, and later years, which it prints with a sign and six digits, are not modelled.
- Time zones: the model takes the local time zone to be UTC. In other zones, `new Date("YYYY-MM-DD")` read with local getters can be a day earlier.
- `Calendar.ParseIsoDate` accepts only `YYYY-MM-DD` with a day that exists in its month. The lenient forms some engines accept (other layouts, February 30) are not modelled, and they count as invalid dates.
- FormState.SelectDuration requires the menu value to read as a valid index, as the menu's options guarantee. A draft holding an out-of-range `durationIdx` is excluded by the `DurationIndex` subset type. Without that type the app would fail when reading `DURATIONS` at that index.
- Invoice.LinesAreSingle and the line-by-line lemmas that rely on it assume newline-free fields. A multi-line key or username splits its line in two in the real preview, and those lemmas do not describe that case. `Invoice.MessageBlocks` still describes the message text for every input.
- The exact emoji and Burmese text of the template is held as constants. Its rendering is not modelled.
