# lfcircle leaderboard model

lfcircle reads each user's weekly last.fm listening report and ranks the users of a "circle" on five metrics:
- a composite of listening hours plus scrobbles;
- scrobbles;
- artists;
- albums;
- tracks.

It then prints one leaderboard as text, in a plain ASCII style or a Telegram markdown style.

This project models what happens after a report page has been fetched and its nodes selected, up to the final text. It covers:

- **Numeric text** (`Extract`). `_int` is modelled as a fixed chain of cleaning steps followed by a numeral check:
  - two `replace`s, then `strip`;
  - the character-set strips `lstrip("days,")` and `rstrip("hours")`, then `strip`.

  The total listening time is days × 24 + hours.
- **Extraction rules** (`Extract`). The page is an abstract, already-selected record: quick facts, top-item panels, rows of top items and overview counts. The rules are:
  - a fact lookup takes the first fact whose text contains the needle;
  - the top overview builds a linked top item from its modal, then zips the names and values of the first matching row;
  - the top new item falls back to a blank item when its count is not a numeral.

  Every failure the source signals with `assert` or `raise` is an `Err` value naming the cause.
- **Qualified names** (`Naming`). `_qualified_thing_name` works as follows:
  - percent-decode the link;
  - strip leading characters of the set `https://www.last.fm/music/`;
  - turn `+` into spaces;
  - keep the text before the first `/`;
  - prefix it to the name with ` — `.

  `NamingExamples` works through two concrete links.
- **Ranking** (`Ranking`). `_rank` inserts every report into a sorted list with `insort` (`bisect_right` semantics), then scans the list backwards for the first equal report. `Ranking.RankSpec` gives its result in closed form, without any sorting.
- **Rendering** (`Render`). `ListeningReport.to_str` is modelled in both styles: the list of lines, the rank fields and column padding, partial lower-casing, and the textual removal of `https://www.`.
- **The circle report** (`Circle`). `make_circle_report` consists of the optional header, the leaderboard order, one entry per report with its four ranks, and the final join.

The records `ThingWithScrobbles`, `ListeningReport` and `Behaviour` are datatypes in `Records`. The output format is a two-constructor datatype, so the source's `NotImplementedError` arm cannot arise.

The loops and append sequences of the source are methods proved equal to the specification functions:
- `Extract.FindFact`, `Extract.FindRow`, `Extract.TopOverview` and `Extract.AppendItems`;
- `Ranking.BuildRanking`, `Ranking.BisectRight`, `Ranking.PositionFromTop` and `Ranking.Rank`;
- `Render.AsciiLines`, `Render.TelegramLines` and `Render.ToStr`;
- `Circle.AppendHeader`, `Circle.Entry`, `Circle.AppendEntries` and `Circle.MakeCircleReport`.

The properties are lemmas about those functions.

Python's `sorted` in `make_circle_report` is stable. It is modelled by the same insertion sort `_rank` builds. `Ranking.StableSortIsInsertionSort` shows this loses nothing: any sorted sequence that keeps every key's elements in input order is that insertion sort.

The program's own documentation of two options says more than the code does. The model follows the code:
- **Lower-casing.** `--lowercase` is documented as making everything lowercase (lfcircle.py:79-80 and 133-136). The code keeps the first three ASCII lines as they are: the intro, the link and the scrobbles line. It also keeps the first Telegram line (`Render.LowercaseText`).
- **Scheme removal.** `--truncate-scheme` is documented as removing `https://www.` in any links (lfcircle.py:128). The code does this with a single `str.replace` pass, which can create a new occurrence (`Render.TruncationCanLeaveScheme`). The docstring names `https://` instead (lfcircle.py:76-77), but the code removes `https://www.`.

Both styles always link the user's report: ASCII on its own `<url>` line, Telegram in the intro. With `all_the_links`, only the artist, album and track items gain a link (a line of its own in ASCII, an inline `[name](url)` in Telegram); the scrobbles line never does.

## Model

| member | source | states |
|---|---|---|
| Extract.CleanNumberChain | lfcircle.py:429-436 | the cleaning `_int` applies is exactly: drop `,`, drop `scrobbles`, strip, strip leading characters of `days,`, strip trailing characters of `hours`, strip |
| Extract.ReadNumberIsClean | lfcircle.py:429-438 | reading a number is cleaning followed by the numeral check; a failure carries the original text |
| Extract.ParseInt | lfcircle.py:428-438 | `_int` itself: the cleaning steps, then the numeral check, else an error carrying the scraped text; `Extract.ParseIntSpec` and `Extract.ParseIntRoundTrip` state its behaviour |
| Extract.ParseIntSpec | lfcircle.py:428-438 | `_int` succeeds exactly when the cleaned text is a numeral, yields its decimal value, and otherwise fails with the original text |
| Extract.ParseIntOf | lfcircle.py:428-438 | a text that cleans to a numeral `d` reads as the value of `d` |
| Extract.CleanNumeral | lfcircle.py:429-436 | a bare numeral passes the cleaning unchanged |
| Extract.ParseIntRoundTrip | lfcircle.py:428-438 | `_int(str(n)) == n` for every natural `n` |
| Extract.ParseIntDropsComma | lfcircle.py:430 | commas are dropped: `a,b` reads as the numeral `ab` |
| Extract.ParseIntThousands | lfcircle.py:428-438 | `"1,234"` reads as 1234 |
| Extract.ParseIntScrobbles | lfcircle.py:428-438 | `"<n> scrobbles"` reads as `n` |
| Extract.ParseIntDaysHours | lfcircle.py:428-438 | the listening-time detail `"days, <h> hours"` reads as `h`, because the set strips eat the words |
| Extract.ScrobblesCountOf | lfcircle.py:441-443 | `_get_scrobbles_count`: the `_int` of the headline total, or an error when the page has none; the field it fills is fixed by `Extract.Assemble` |
| Extract.DailyAvgOf | lfcircle.py:446-456 | `_get_scrobbles_daily_avg`: the `_int` of the value of the first fact mentioning "Average scrobbles" (`Extract.FirstFact`), or a "not found" error |
| Extract.FirstFact | lfcircle.py:448-456 | the found fact contains the needle and no earlier fact does; "not found" means no fact contains it |
| Extract.FirstFactIs | lfcircle.py:448-451 | an index whose fact contains the needle, with no earlier one that does, is the one the search finds |
| Extract.FindFact | lfcircle.py:448-456 | the `for … else` search loop returns exactly the first matching fact or none |
| Extract.ListeningTimeOfFact | lfcircle.py:465-471 | the days read from a fact's value and the hours from its detail, combined as days × 24 + hours, as `Extract.ListeningTimeSplits` states |
| Extract.ListeningTimeOf | lfcircle.py:459-474 | `_get_listening_time_hours`: the listening time of the first fact mentioning "Listening time" (`Extract.FirstFact`), or a "not found" error |
| Extract.OverviewCountOf | lfcircle.py:477-492 | `_get_overview_scrobbles` for the artist, album or track overview: the `_int` of its scrobbles element, or an error when either element is missing |
| Extract.ListeningTimeSplits | lfcircle.py:459-471 | with days and hours read, listening time is days × 24 + hours; for hours below 24, `/ 24` and `% 24` give them back |
| Extract.ParseAll | lfcircle.py:529-531 | reading a list of values succeeds with one value per text, each the `_int` of its text |
| Extract.ParseAllFails | lfcircle.py:531 | a failed list read fails with the error of the first text that is not a numeral, all earlier ones being numerals |
| Extract.FirstRow | lfcircle.py:519-521 | the chosen row carries the needle and no earlier row does; "none" means no row carries it |
| Extract.FirstRowIs | lfcircle.py:519-521 | an index carrying the needle, with no earlier one that does, is the one the search finds |
| Extract.FindRow | lfcircle.py:519-521 | the row search loop returns exactly the first matching row or none |
| Extract.Secondary | lfcircle.py:529-533 | one unlinked item per name, in order: the stripped name with the value beside it |
| Extract.AppendItems | lfcircle.py:529-533 | the append loop leaves the items before it followed by exactly the secondary items |
| Extract.RowItems | lfcircle.py:523-535 | a successful row read starts with the top item |
| Extract.TopOverviewOf | lfcircle.py:495-538 | a successful top overview is non-empty and its first item has a link |
| Extract.TopOverview | lfcircle.py:495-538 | the imperative top-overview routine returns exactly the specified result, error included |
| Extract.TopItemOf | lfcircle.py:504-516 | the top item of a category's modal; its shape and error cases are stated by `Extract.TopItemShape` and `Extract.TopOverviewButtonMoved` |
| Extract.TopItemShape | lfcircle.py:504-516 | a top item exists only when its panel has header, value and link and the link reads "View … page"; its name is the stripped header, its count the `_int` of the value, its url `https://www.last.fm` + href (default `/`) |
| Extract.TopOverviewButtonMoved | lfcircle.py:508 | a link text without the view needle fails with the "button moved" error |
| Extract.TopOverviewLengthMismatch | lfcircle.py:527 | a first matching row whose names and values differ in number fails with a length mismatch |
| Extract.TopOverviewNoRow | lfcircle.py:537-538 | no row carrying the overview class fails with "not found" for that class |
| Extract.RowItemsOk | lfcircle.py:523-535 | a successful row has as many names as values, all values numerals, and yields the top item followed by the secondary items |
| Extract.ItemsAfterTop | lfcircle.py:529-533 | after the top item comes item `j` = (stripped name `j`, value `j`, no link) |
| Extract.RowItemsShape | lfcircle.py:519-535 | a successful overview has 1 + #names items: the top item, then unlinked items with the stripped names and the `_int` of each value |
| Extract.TopOverviewShape | lfcircle.py:510-535 | a successful overview is the top item plus the items of the first row carrying the overview class |
| Extract.TopNewOf | lfcircle.py:568-585 | `_get_top_new_thing`: the first row holding the category's new item; `Extract.TopNewCount` and `Extract.TopNewFallback` state its two outcomes |
| Extract.TopNewFallback | lfcircle.py:576-582 | a new-item count that does not clean to a numeral gives the blank item `("", 0, None)` |
| Extract.NewCountNumeral | lfcircle.py:577 | `"<d> scrobbles"` cleans to the numeral `d` |
| Extract.TopNewCount | lfcircle.py:573-582 | a count `"<n> scrobbles"` gives the stripped title with `n` scrobbles and no link |
| Extract.ExtractReport | lfcircle.py:390-425 | `get_listening_report` once the page is fetched; `Extract.Assemble` and `Extract.ExtractReportWellFormed` state what it returns |
| Extract.Assemble | lfcircle.py:410-425 | a report is built exactly when every field was extracted, each field landing in its place; user and url come from the target |
| Extract.AssembleFirstError | lfcircle.py:410-425 | a failing report carries the error of the first failing field in the keyword order, which is the exception `get_listening_report` raises first |
| Extract.ExtractReportWellFormed | lfcircle.py:410-425 | an extracted report is well formed (non-empty top lists), belongs to the target, and its three top items carry links |
| Naming.BeforeSlash | lfcircle.py:216-220 | `split("/", maxsplit=1)[0]`: a slash-free prefix of the text that ends at its first slash |
| Naming.BeforeSlashOf | lfcircle.py:216-222 | a slash-free segment followed by `/` and anything, or alone, splits back to that segment |
| Naming.QualifiedThingName | lfcircle.py:208-222 | `_qualified_thing_name`; `Naming.QualifiedNameWithoutLink` and `Naming.QualifiedNameWithLink` state its two cases |
| Naming.QualifiedNameWithoutLink | lfcircle.py:211-212 | without a link the bare name is shown |
| Naming.QualifiedNameWithLink | lfcircle.py:214-222 | with a link the result is always `seg + " — " + name`, `seg` slash-free and the cleaned link up to its first slash |
| Naming.CleanedLink | lfcircle.py:216-219 | the link after `unquote`, `lstrip` of the prefix character set and `+` to space; `Naming.CleanedMusicLink` and `Naming.CleanedFullPrefixLink` state what it leaves |
| Naming.CleanedMusicLink | lfcircle.py:216-219 | characters of the stripped set followed by a text `t` clean down to `t` with `+` as spaces |
| Naming.CleanedFullPrefixLink | lfcircle.py:216-219 | the music-page prefix followed by `t` cleans down to `t` with `+` as spaces |
| Naming.CleanedPrefixAndSetLink | lfcircle.py:216-219 | letters of the stripped set right after the prefix are removed as well (character-set semantics) |
| Naming.ReplaceOnePlus | lfcircle.py:219 | one `+` between plus-free texts becomes one space |
| NamingExamples.CleanedRadioheadLink | lfcircle.py:216-219 | `…/music/Radiohead/OK+Computer` cleans to `Radiohead/OK Computer` |
| NamingExamples.QualifiedNameRadiohead | lfcircle.py:208-222 | "OK Computer" with that link is shown as "Radiohead — OK Computer" |
| NamingExamples.CleanedAltJLink | lfcircle.py:216-219 | `…/music/alt-J/_/Breezeblocks` cleans to `-J/_/Breezeblocks`: the set strip also eats "alt" |
| NamingExamples.QualifiedNameStripsLeadingLetters | lfcircle.py:208-222 | "Breezeblocks" by alt-J is shown as "-J — Breezeblocks" |
| Ranking.SplitPoint | lfcircle.py:605 | `bisect_right`'s point: every later element has a larger key; in a sorted list every earlier one has a key at most the new one's |
| Ranking.BisectRight | lfcircle.py:605 | the binary search returns exactly the split point |
| Ranking.InsertAt | lfcircle.py:605 | inserting at a point keeps the elements before it, puts the new one there, shifts the rest, and adds exactly one element |
| Ranking.InsertSorted | lfcircle.py:605 | inserting at the split point keeps a sorted list sorted |
| Ranking.Insorted | lfcircle.py:605 | `insort` adds exactly the new element and keeps the list sorted |
| Ranking.InsertionSort | lfcircle.py:603-605 | the ranking is sorted by the key and is a permutation of the input |
| Ranking.InsertionSortStep | lfcircle.py:604-605 | one more loop round inserts the next report at its split point |
| Ranking.InsertionSortExtend | lfcircle.py:604-605 | the ranking of a longer prefix is the previous ranking with the next report `insort`ed |
| Ranking.BuildRanking | lfcircle.py:603-605 | the `insort` loop yields the insertion-sorted ranking (its invariant: sorted, a permutation of the prefix read so far) |
| Ranking.InsertionSortStable | lfcircle.py:603-605 | reports with equal keys keep their input order in the ranking |
| Ranking.InsertionSortDistinct | lfcircle.py:603-605 | a ranking of distinct reports has no repetitions |
| Ranking.InsertionSortCountAbove | lfcircle.py:603-605 | sorting does not change how many reports have a key above a given value |
| Ranking.StableSortUnique | lfcircle.py:632-635 | two sorted sequences that agree key by key on their order are equal |
| Ranking.StableSortIsInsertionSort | lfcircle.py:632-635 | any stable sort of the reports, as `sorted` performs, equals the insertion-sorted ranking |
| Ranking.Reversed | lfcircle.py:607 | `reversed`: element `i` is element `n-1-i` of the input |
| Ranking.ReversedMultiset | lfcircle.py:631 | reversing only reorders |
| Ranking.ReversedSortedDescends | lfcircle.py:630-636 | a sorted list read backwards has keys that never increase |
| Ranking.PositionFromTop | lfcircle.py:607-611 | the backwards scan returns the 1-based position of the first equal element, 0 when there is none |
| Ranking.RankSpec | lfcircle.py:600-611 | the rank in closed form, without sorting: 1 + #{higher keys} + #{equal keys after the last occurrence of `r`}, or 0 when `r` is absent; `Ranking.Rank` shows `_rank` computes it and `Ranking.RankBounds` bounds it |
| Ranking.RankFromSort | lfcircle.py:600-611 | the position found in the ranking is `1 + #{higher keys} + #{equal keys after the last occurrence of r}`, or 0 |
| Ranking.Rank | lfcircle.py:600-611 | `_rank` returns exactly that closed form |
| Ranking.RankSpecAppend | lfcircle.py:604-605 | a report added last ranks just below the higher keys, and moves an earlier report down by one when its key is at least that report's |
| Ranking.RankSpecAppendSelf | lfcircle.py:604-605 | a report added last ranks one below the number of higher keys |
| Ranking.RankSpecAppendOther | lfcircle.py:604-605 | a report already present moves down by one exactly when the added key is at least its own |
| Ranking.ReversedIndexInsert | lfcircle.py:605-609 | after an `insort`, the inserted report is found at `len + 1 - split`, and others move down by one exactly when the new key is at least theirs |
| Ranking.RankBounds | lfcircle.py:600-611 | the rank is 0 exactly when no report equals `r`, and never exceeds the number of reports |
| Ranking.RankInjective | lfcircle.py:607-609 | two different reports that take part never share a rank |
| Ranking.RankHigherKeyBetter | lfcircle.py:600-611 | a strictly higher key gives a strictly better rank |
| Ranking.LaterTailShorter | lfcircle.py:605 | fewer equal keys follow a later position than an earlier one |
| Ranking.RankTieLaterBetter | lfcircle.py:600-611 | among equal keys, the report occurring later in the input ranks better |
| Ranking.ReversedPositionIsRank | lfcircle.py:607-609 | with distinct reports, the `i`-th element of the reversed ranking has rank `i + 1` |
| Render.RankFieldWidth | lfcircle.py:268-279 | a rank field is at least `len("#" + str(n))` wide (exactly that for a rank up to `n`), ends in `#pos` and is padded with spaces on the left |
| Render.AsciiBasket | lfcircle.py:258-321 | the ASCII style builds six lines |
| Render.TelegramBasket | lfcircle.py:329-371 | the Telegram style builds five lines |
| Render.AsciiLines | lfcircle.py:258-321 | the ASCII append sequence builds exactly the specified six lines |
| Render.TelegramLines | lfcircle.py:329-371 | the Telegram append sequence builds exactly the specified five lines |
| Render.ToStr | lfcircle.py:243-387 | `to_str` returns exactly the specified report text |
| Render.ReportText | lfcircle.py:243-387 | what `to_str` returns; `Render.ToStr` shows the method computes it, `Render.PlainText` and `Render.LowercaseText` state its cases |
| Render.PlainText | lfcircle.py:323-377 | without lower-casing or truncation the text is the lines joined by newlines |
| Render.LowercaseText | lfcircle.py:323-377 | with lower-casing, ASCII keeps its first three lines and Telegram its first line as they are, and lower-cases the rest |
| Render.AsciiUrlShape | lfcircle.py:264-266 | the one-line report link is indented by `len(str(pos)) + 2` spaces, in angle brackets, followed by an empty line |
| Render.AsciiLabelShape | lfcircle.py:276-282 | a count label is the indentation, the count text padded to the scrobble label's width, then ` (`, the rank field, `) : ` |
| Render.LabelIsOneLine | lfcircle.py:276-282 | a count label is one non-blank line, so `indent` prefixes it once |
| Render.AsciiLabelWidth | lfcircle.py:276-282 | a count label is as wide as the scrobble line up to its rank field, plus the field, and ends in `) : ` |
| Render.AsciiScrobblesColumn | lfcircle.py:271-273 | the scrobble line's closing parenthesis sits right after its rank field |
| Render.ArtistsColumnWidth | lfcircle.py:276-282 | the artist label closes its rank field at the common column |
| Render.AlbumsColumnWidth | lfcircle.py:292-298 | the album label closes its rank field at the common column |
| Render.TracksColumnWidth | lfcircle.py:308-314 | the track label closes its rank field at the common column |
| Render.AsciiColumnsAligned | lfcircle.py:268-314 | all four ASCII rank fields close at the same column (counts no larger than the scrobbles, ranks within the count) |
| Render.MissingLinkShown | lfcircle.py:284-348 | an item without a link shows as `<None>` in ASCII and `(None)` in Telegram |
| Render.Truncated | lfcircle.py:384-385 | the single `replace` pass of `truncate_scheme`; the truncation lemmas below state what it does and does not remove |
| Render.TruncationWithoutScheme | lfcircle.py:384-385 | truncation leaves a text without `https://www.` untouched |
| Render.TruncatedPrefix | lfcircle.py:384-385 | truncation removes a leading `https://www.` followed by text that holds no other `https://www.` |
| Render.TruncatedAfterPrefix | lfcircle.py:384-385 | a leading `https://www.`, then a text without `h`, then one without `https://www.`: only the leading one goes |
| Render.UserPathClear | lfcircle.py:396 | no `https://www.` straddles a user name and the report path that follows it |
| Render.TruncatedReportUrl | lfcircle.py:384-396 | the report link loses exactly its `https://www.` for every user name that does not itself hold one |
| Render.TruncationCanLeaveScheme | lfcircle.py:384-385 | one `replace` pass can create a new `https://www.` out of its two sides |
| Circle.CircleReport | lfcircle.py:614-668 | what `make_circle_report` returns; `Circle.MakeCircleReport` shows the method computes it, `Circle.NoReports` and `Circle.HeaderPlacement` state its shape |
| Circle.HeaderText | lfcircle.py:620-628 | a header gives, in ASCII, the header, a line of as many dashes and an empty line; in Telegram, the header and an empty line |
| Circle.NoReports | lfcircle.py:618-628 | with no reports the result is the header block alone, or `""` without a header |
| Circle.HeaderPlacement | lfcircle.py:618-668 | the header block, when there is one, comes before the entries, separated by a newline; otherwise the text is the entries alone |
| Circle.Leaderboard | lfcircle.py:630-638 | `reversed(sorted(...))` on hours + scrobbles: non-increasing hours + scrobbles, tied reports in reverse input order; `Circle.LeaderboardOrder` states the order, `Ranking.StableSortIsInsertionSort` that the insertion sort is `sorted`, and `Ranking.RankTieLaterBetter` with `Circle.LeaderboardPositionIsRank` the tie order |
| Circle.LeaderboardOrder | lfcircle.py:630-638 | the leaderboard is a permutation of the reports in non-increasing order of hours + scrobbles |
| Circle.LeaderboardWellFormed | lfcircle.py:630-638 | reordering keeps every report well formed |
| Circle.TwoUsersOrder | lfcircle.py:630-638 | of two users, the one with the higher hours + scrobbles comes first |
| Circle.EntriesShape | lfcircle.py:630-666 | exactly one entry per report, entry `i` the report at leaderboard position `i + 1` |
| Circle.EntryEndsInNewline | lfcircle.py:639-666 | every entry ends in a newline |
| Circle.PositionsOf | lfcircle.py:639-663 | the leaderboard position, the four `_rank`s and the count handed to `to_str`; `Circle.EntryPositions` bounds them |
| Circle.EntryPositions | lfcircle.py:639-663 | each entry gets its position `i + 1`, four ranks in `1..n` and the count `n` |
| Circle.LeaderboardPositionIsRank | lfcircle.py:630-663 | with distinct reports, the leaderboard position is the `_rank` on hours + scrobbles |
| Circle.AppendHeader | lfcircle.py:620-628 | the header appends produce exactly the header lines |
| Circle.Entry | lfcircle.py:639-666 | one entry is the rendered report with its four `_rank`s and a newline |
| Circle.AppendEntries | lfcircle.py:630-666 | the `enumerate` loop appends exactly one entry per leaderboard position |
| Circle.MakeCircleReport | lfcircle.py:614-668 | `make_circle_report` returns exactly the header and entries joined by newlines |

## Left out

- `handle_args` and `cli` (lfcircle.py:101-169, 671-704) are not modelled:
  - argument parsing;
  - printing and error reporting;
  - the iteration order of `set(behaviour.targets)`, which Python does not fix.

  The model takes the list of reports as given.
- `get_listening_report`'s HTTP request and status check (lfcircle.py:396-408) are left out because they are network I/O. The page is a parameter of type `Extract.Page`.
- The BeautifulSoup selector engine (`select`, `select_one`, `.text`, `.attrs`) is left out. A page is the record of what those selections return.
- `Limiter` (lfcircle.py:176-197) is left out: it only delays calls by wall-clock time.
- `Behaviour.verbose` is carried but unused, because logging is output only.
- Python's Unicode string semantics are restricted to ASCII:
  - `str.lower` lower-cases `A`–`Z` only;
  - `isnumeric` accepts `0`–`9` only;
  - `strip` removes the ASCII whitespace and separator characters;
  - `unquote` decodes `%XX` escapes below `0x80` and leaves the rest as they are, so UTF-8 decoding of escaped multi-byte characters is not modelled.
- Failures are values, not exceptions. The source raises `AssertionError` or `Exception`; the model returns `Err` with the cause.
- Timsort itself is not modelled. `sorted` is represented by the insertion sort, which `Ranking.StableSortIsInsertionSort` shows is the only stable result.
- Render.TruncationWithoutScheme: proves only that the removal of `https://www.` preserves texts without it, plus the prefix cases (`Render.TruncatedPrefix`, `Render.TruncatedReportUrl`). "No `https://www.` remains" is false for the single `replace` pass, as `Render.TruncationCanLeaveScheme` shows.
- Render.AsciiColumnsAligned: requires every count is at most the scrobble count and every rank at most `n`. Otherwise `ljust` and `rjust` do not pad and the columns drift, as in the source.
