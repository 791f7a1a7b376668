# notcurses terminal interrogation, modelled in Dafny

This project models `src/lib/terminfo.c` of notcurses. That file is where the library learns
what the terminal can do. It covers:

- **`query_rgb`**: decides TrueColor support from the terminfo `RGB` flag. When the flag is not
  set, it falls back to the `COLORTERM` environment variable, which must be exactly `truecolor`
  or `24bit`.
- **`terminfostr`**: fetches one string capability. It returns -1 and NULL for an absent or
  cancelled one. Otherwise it cuts the template at its first `$`, which removes the `$<N>` pause
  directive that `tputs` would honour.
- **`interrogate_terminfo`**: fills the capability record `tinfo` from the database.
  - It sets the colour count, with a monochrome fallback when there is no positive count.
  - It sets `initc`/`ccc` and the TrueColor decision.
  - It needs `cup` and automatic margins (`am`), and gives up with -1 without them.
  - It reads the optional templates.
  - The no-color-video mask `ncv` nulls the style templates it names.
  - Finally it switches the keypad to transmit mode with `smkx` when that template exists.
- **`cursor_yx_get`**: writes the cursor-position request `ESC [ 6 n`. It then parses the
  reply `ESC [ row ; column R` one byte per `read` with a state machine.
- **`interrogate_sixel`**: writes the primary device-attributes request `ESC [ c`. It then parses
  the reply `ESC [ ? code ; code ; ... c`, skipping reads that would block. It reports sixel
  support when a code that a `;` closes is 4.
- **`notcurses_cansixel`**: runs that query once per context and caches the answer.

Modules:

| module | file | what it holds |
|---|---|---|
| `Wrappers` | `wrappers.dfy` | `Option` (a C pointer that may be NULL) |
| `Digits` | `digits.dfy` | decimal digit runs, their values, `Span` (the longest run a predicate accepts) |
| `Tty` | `tty.dfy` | the terminal as a sequence of `read` outcomes, and the two ways the parsers consume it |
| `Templates` | `templates.dfy` | the terminfo database, the `$` cut, `TerminfoStr` |
| `TrueColor` | `truecolor.dfy` | `QueryRgb` |
| `Interrogate` | `interrogate.dfy` | the capability record `Caps`, the spec function `Interrogation`, the method `InterrogateTerminfo` and its stage methods |
| `InterrogateFacts` | `interrogate_facts.dfy` | what a failed or successful interrogation leaves in each field |
| `CursorQuery` | `cursor.dfy` | the reply grammar `CprParse`, its round trip, and the loop `CursorYXGet` proved equal to it |
| `SixelQuery` | `sixel.dfy` | the reply grammar `DaParse`, its round trip, and the loop `InterrogateSixel` proved equal to it |
| `SixelCache` | `cache.dfy` | the context's `sixel` field as a class, and `CanSixel` |

How each operation is modelled:

- **External input is a parameter.**
  - The terminfo database is a value `Terminfo` holding `tigetstr`, `tigetflag` and `tigetnum`
    as total functions of the capability name.
  - `getenv("COLORTERM")` is an `Option<string>`.
  - Whether `putp` succeeds is a boolean.
  - What `write` returned is an integer.
  - The terminal's side of the exchange is a `seq<Read>`. Each element is one `read` outcome:
    a byte, would-block (`EAGAIN`), or another error. The end of the sequence stands for end of
    file.
- **Each reply parser has two definitions.** The loop is an imperative `method` with a `while`
  loop. Beside it is an independent grammar over the delivered bytes (`CprParse`, `DaParse`),
  written with digit runs and framing rather than states. The method is proved to return exactly
  what the grammar says. Each grammar is proved to accept every reply a terminal sends, with
  its values (round trips). Like the source, the grammars also accept replies no terminal
  writes: empty or zero-padded digit runs (`ESC [ ; R` gives row 0, column 0), an empty code
  list (`ESC [ ? c`), and a `;` at the start or just before `c`.
- **`interrogate_terminfo` fills its out-parameter record in stages, as the source does.** It is
  proved equal to the spec function `Interrogation`. Lemmas then state, field by field, where
  each template comes from.

### Where the intent and the code differ

The intended behaviour is to report sixel support when code 4 appears anywhere in the
device-attributes reply. The code (`src/lib/terminfo.c:247-261`) compares a code with 4 only
when a `;` closes it. The last code is closed by `c`, and that path never compares it.
`ESC [ ? 1 ; 4 c` therefore reports no sixel support. The model follows the code:

- `SixelQuery.DaParse` compares only the codes a `;` closes.
- `SixelQuery.DaRoundTrip` proves the answer is "4 is among the codes before the last".
- `SixelQuery.FinalSixelCodeMissed` and `SixelQuery.DaExampleFinalFour` state the missed case.

Beside it, `SixelQuery.DaParseIntended` reads the reply as intended: the same grammar, with the
code that `c` closes compared as well. `SixelQuery.DaIntendedRoundTrip` proves it reports sixel
support exactly when 4 is any of the codes. `SixelQuery.DaParsesDiffer` proves the two readings
disagree on a terminal's reply exactly when 4 is its last code and no other. The operation
`SixelQuery.InterrogateSixel` keeps the behaviour as written, since it models the function.

## Model

| member | source | states |
|---|---|---|
| TrueColor.QueryRgb | src/lib/terminfo.c:4-23 | a set `RGB` flag means TrueColor; with `COLORTERM` unset the flag alone decides; TrueColor otherwise needs `COLORTERM` to be `truecolor` or `24bit` |
| Templates.PauseFree | src/lib/terminfo.c:39-42 | the sanitised template is a prefix of the raw one, holds no `$`, and stops only where the raw template has a `$` |
| Templates.PauseFreeUnique | src/lib/terminfo.c:39-42 | those three properties single out one string: the text before the first `$` |
| Templates.NoPauseUnchanged | src/lib/terminfo.c:39-42 | a template without a pause directive passes unchanged |
| Templates.PauseFreeIdempotent | src/lib/terminfo.c:35-42 | cutting an already cut template changes nothing |
| Templates.TerminfoStr | src/lib/terminfo.c:25-44 | returns -1 with a NULL template exactly when the capability is absent or cancelled; otherwise returns 0 with the template cut at its first `$`, a `$`-free prefix of the database's string |
| TrueColor.FlagWins | src/lib/terminfo.c:4-7 | a set `RGB` flag means TrueColor whatever `COLORTERM` says |
| TrueColor.ExactFallback | src/lib/terminfo.c:7-22 | without the flag, TrueColor holds exactly when `COLORTERM` is `truecolor` or `24bit` |
| TrueColor.NoLooseMatch | src/lib/terminfo.c:19-20 | the comparison is case-sensitive and whole-string: `TRUECOLOR`, `truecolors`, `24` and `xterm-truecolor` are refused |
| TrueColor.UnsetMeansNo | src/lib/terminfo.c:19-20 | an unset `COLORTERM` without the flag means no TrueColor |
| Interrogate.StyleField | src/lib/terminfo.c:100-125 | the field holding a style's template is the field of that style's terminfo capability |
| Interrogate.MaskStyles | src/lib/terminfo.c:100-125 | each style template is nulled exactly when the mask is positive and has the style's bit; every other field is unchanged |
| Interrogate.Interrogation | src/lib/terminfo.c:46-139 | returns 0 or -1, and 0 exactly when `cup` is present, `am` is set and either there is no `smkx` or writing it succeeds; `smkx` is written exactly when `cup`, `am` and `smkx` are all there; the colour count is at least 1; a non-positive count gives 1 colour with TrueColor, `ccc` and `initc` off; a positive count is kept with `initc` from the database and TrueColor from `query_rgb`; `ccc` is set exactly when `initc` is present and the flag is 1 |
| Interrogate.SetupColors | src/lib/terminfo.c:47-61 | the colour part of the record is `ColorSetup` |
| Interrogate.FetchOptional | src/lib/terminfo.c:74-99 | the optional fetches leave `WithOptional` |
| Interrogate.ApplyNcv | src/lib/terminfo.c:100-125 | the mask step leaves `MaskStyles` |
| Interrogate.FetchLate | src/lib/terminfo.c:126-131 | the late fetches leave `WithLate` |
| Interrogate.InterrogateTerminfo | src/lib/terminfo.c:46-139 | the return code, the record and whether `smkx` was written are exactly `Interrogation`'s |
| InterrogateFacts.MissingCupStops | src/lib/terminfo.c:62-67 | without `cup`: -1, no keypad write, `am` off, and every template except `initc` NULL |
| InterrogateFacts.MissingAmStops | src/lib/terminfo.c:68-73 | with `cup` but without `am`: -1, no keypad write, `cup` kept, and every other template except `initc` NULL |
| InterrogateFacts.SuccessRecord | src/lib/terminfo.c:74-131 | past `cup` and `am`, the record is the colour set-up followed by the optional fetches, the mask and the late fetches |
| InterrogateFacts.TemplatesFromDatabase | src/lib/terminfo.c:74-131 | past `cup` and `am`, every template that turns on no style, other than `initc`, is the database's, sanitised |
| InterrogateFacts.StylesMasked | src/lib/terminfo.c:100-125 | past `cup` and `am`, a style template is the database's, sanitised, unless a positive `ncv` has the style's bit, in which case it is NULL |
| InterrogateFacts.LateField | src/lib/terminfo.c:126-131 | the late fetches set exactly `getm`, `setaf`, `setab`, `smkx`, `rmkx` |
| InterrogateFacts.OptionalField | src/lib/terminfo.c:74-99 | the optional fetches set exactly the templates from `civis` to `cub1`, and nothing else |
| InterrogateFacts.MaskedField | src/lib/terminfo.c:100-125 | the mask touches only the seven style templates, each through its own style's bit |
| InterrogateFacts.SingleStyleMask | src/lib/terminfo.c:104-124 | a mask with one style's bit has that style's bit and no other's |
| InterrogateFacts.NonPositiveMaskKeeps | src/lib/terminfo.c:102-103 | a zero or negative `ncv` leaves the record unchanged |
| Tty.ReadBytes | src/lib/terminfo.c:156 | the loop reading while `read` returns 1 consumes no more characters than there are reads, and stops only at a read that delivered no byte |
| Tty.ReadBytesDelivered | src/lib/terminfo.c:156 | each character that loop consumes is the byte the read at the same position delivered |
| Tty.ReadBytesRetrying | src/lib/terminfo.c:232-235 | the loop retrying on `EAGAIN` consumes no more characters than there are reads, and all of them when every read delivers a byte |
| Tty.ReadBytesOfBytes | src/lib/terminfo.c:156 | a loop reading while `read` returns 1 consumes every byte a terminal delivers before anything else |
| Tty.WouldBlockEndsReadBytes | src/lib/terminfo.c:156 | for that loop a would-block read ends the input like a failed one |
| Tty.ReadBytesAdvance | src/lib/terminfo.c:156 | one more byte read is the next byte of what the loop consumes |
| Tty.ReadBytesStop | src/lib/terminfo.c:156 | when `read` stops delivering, the loop has consumed everything |
| Tty.RetryingOfBytes | src/lib/terminfo.c:232-235 | the retrying loop consumes every byte delivered before anything else |
| Tty.RetryingSkipsWouldBlock | src/lib/terminfo.c:232-235 | the retrying loop ignores would-block reads wherever they fall |
| Tty.RetryingAdvance | src/lib/terminfo.c:232-235 | one more byte read is the next byte of what the retrying loop consumes |
| Tty.RetryingSkip | src/lib/terminfo.c:233-235 | a would-block read delivers nothing |
| Tty.RetryingStop | src/lib/terminfo.c:232 | on a failed read or end of file the retrying loop has consumed everything |
| Digits.DecValueSnoc | src/lib/terminfo.c:162-164 | one more digit multiplies the value by ten and adds the digit, as the accumulators do |
| Digits.DecValueOfDecimal | src/lib/terminfo.c:162-164 | accumulating the digits of a number written in decimal gives the number back |
| CursorQuery.CprParse | src/lib/terminfo.c:156-195 | an accepted reply consumes at least the four framing bytes and ends with `R` |
| CursorQuery.CursorStep | src/lib/terminfo.c:158-183 | one pass of the `switch`: nothing is valid after `R`; `R` is accepted only in the column and keeps both values; `;` moves from the row to the column; a value changes only by a digit in its own run, to ten times itself plus the digit |
| CursorQuery.RowEndsAt | src/lib/terminfo.c:161-170 | where the row digits stop, anything but `;` is a framing error |
| CursorQuery.ColumnEndsAt | src/lib/terminfo.c:171-180 | where the column digits stop, anything but `R` is a framing error, and `R` accepts the two runs' values |
| CursorQuery.RowStep | src/lib/terminfo.c:161-170 | in the row, a digit extends the row, `;` starts the column, anything else makes the grammar reject |
| CursorQuery.ColumnStep | src/lib/terminfo.c:171-180 | in the column, a digit extends it, `R` completes the report with the accumulated values, anything else makes the grammar reject |
| CursorQuery.CursorStepSound | src/lib/terminfo.c:157-191 | every pass of the `switch` judges its byte as the grammar does: invalid means rejected, `R` means accepted with the accumulated values, anything else keeps the loop invariant |
| CursorQuery.CursorEndSound | src/lib/terminfo.c:193-195 | input that ends before `R` is rejected by the grammar too |
| CursorQuery.CprRoundTrip | src/lib/terminfo.c:142-203 | a report for any position, followed by anything, parses back to that position and consumes exactly the report |
| CursorQuery.CprParseFramed | src/lib/terminfo.c:156-192 | any framed report, with digit runs of any length including empty or zero-padded ones, is accepted with the runs' values |
| CursorQuery.CprParseAt | src/lib/terminfo.c:156-192 | a reply framed by `;` at one index and `R` at a later one is accepted with the values of the two runs |
| CursorQuery.CprAcceptsOnlyReports | src/lib/terminfo.c:156-192 | conversely, whatever is accepted starts with a framed report whose runs give the row and column |
| CursorQuery.CprRejectsStrayRowByte | src/lib/terminfo.c:161-187 | a byte that is neither a digit nor `;` inside the row is a framing error |
| CursorQuery.CprRejectsTruncated | src/lib/terminfo.c:193-195 | a report cut short anywhere before its `R` fails |
| CursorQuery.CprExample | src/lib/terminfo.c:142-203 | `ESC [ 1 2 ; 3 4 R` gives row 12, column 34, eight bytes |
| CursorQuery.CursorYXGet | src/lib/terminfo.c:142-203 | a short `write` gives -1 without reading; otherwise returns 0 exactly when the bytes read parse as a report, with the report's row and column and the bytes it used; on -1 neither coordinate is stored |
| SixelQuery.DaParse | src/lib/terminfo.c:236-276 | an accepted reply starts with `ESC [ ?` and holds a `c` after it |
| SixelQuery.CapsStep | src/lib/terminfo.c:237-265 | one pass of the `switch`: nothing is valid after `c`; `c` is accepted only in the code list and keeps the flag; `;` is accepted only after a digit and resets the code; the flag is raised only by a `;` closing code 4; a digit makes the code ten times itself plus the digit |
| SixelQuery.Open | src/lib/terminfo.c:241-246 | the code being read is a digit run no longer than the list |
| SixelQuery.BodySnoc | src/lib/terminfo.c:241-261 | a digit extends the open code; a `;` closes it, appends its value to the closed codes, and forms an empty code exactly after another `;` |
| SixelQuery.BodyCovers | src/lib/terminfo.c:241-262 | the code list extends at least as far as the code characters read, and keeps any empty code they contain |
| SixelQuery.BodyEndsAt | src/lib/terminfo.c:258-264 | the code list ends at the first byte that is neither a digit nor `;` |
| SixelQuery.CapsStepSound | src/lib/terminfo.c:236-272 | every pass of the `switch` judges its byte as the grammar does: invalid means rejected, `c` means accepted with the flag accumulated, anything else keeps the loop invariant |
| SixelQuery.DigitStep | src/lib/terminfo.c:242-246 | a digit extends the code being read |
| SixelQuery.SemicolonStep | src/lib/terminfo.c:247-257 | `;` right after `;` makes the grammar reject; otherwise it closes the code, comparing it with 4 |
| SixelQuery.CapsEndSound | src/lib/terminfo.c:274-276 | input that ends before `c` is rejected |
| SixelQuery.AppendDigits | src/lib/terminfo.c:242-246 | appending digits extends the open code and closes nothing |
| SixelQuery.CloseAndAppend | src/lib/terminfo.c:247-257 | `;` followed by digits closes the open code and opens the new one |
| SixelQuery.JoinCodesParts | src/lib/terminfo.c:241-261 | a list of codes joined by `;` is well formed, with its last code open and all others closed |
| SixelQuery.JoinCodesStep | src/lib/terminfo.c:247-257 | one more code keeps that shape |
| SixelQuery.DaParseFramed | src/lib/terminfo.c:236-273 | a well-formed code list between `ESC [ ?` and `c` is accepted, reporting whether a closed code is 4 |
| SixelQuery.DaRoundTrip | src/lib/terminfo.c:207-283 | for any codes, the reply a terminal sends parses to sixel support exactly when 4 is among the codes before the last |
| SixelQuery.FinalSixelCodeMissed | src/lib/terminfo.c:247-261 | a 4 that is only the last code is not reported |
| SixelQuery.DaRejectsAdjacentSemicolons | src/lib/terminfo.c:247-250 | an empty code between two `;` makes the reply fail |
| SixelQuery.DaParseIntended | src/lib/terminfo.c:247-261 | the intended reading, which compares the code that `c` closes as well, fails exactly where the code as written fails, and reports sixel support wherever it does |
| SixelQuery.DaIntendedRoundTrip | src/lib/terminfo.c:247-261 | read as intended, a terminal's reply reports sixel support exactly when 4 is any of its codes |
| SixelQuery.DaParsesDiffer | src/lib/terminfo.c:247-261 | on a terminal's reply, the two readings disagree exactly when 4 is the last code and no other |
| SixelQuery.DaIntendedExampleFinalFour | src/lib/terminfo.c:258-261 | read as intended, `ESC [ ? 1 ; 4 c` reports sixel |
| SixelQuery.DaExampleSixel | src/lib/terminfo.c:207-283 | `ESC [ ? 1 ; 4 ; 6 c` reports sixel |
| SixelQuery.DaExampleNoSixel | src/lib/terminfo.c:207-283 | `ESC [ ? 1 ; 2 c` does not |
| SixelQuery.DaExampleFinalFour | src/lib/terminfo.c:247-261 | `ESC [ ? 1 ; 4 c` does not either |
| SixelQuery.SixelAnswer | src/lib/terminfo.c:207-283 | the answer is 0 or -1 |
| SixelQuery.InterrogateSixel | src/lib/terminfo.c:207-283 | returns 0 exactly when the descriptor is valid, all three request bytes were written and the bytes read, skipping would-block reads, parse as a reply with sixel support; -1 otherwise |
| SixelCache.Notcurses.CanSixel | src/lib/terminfo.c:285-298 | the query runs exactly when the cache is unverified, and its answer is then stored; otherwise the cache is unchanged; afterwards the cache is verified, and the result is true exactly when it is verified true |
| SixelCache.CanSixelTwice | src/lib/terminfo.c:285-298 | a second call issues no query and answers what the first did; from an unverified cache, the first answer is the query's |

## Left out

- Mutex: `pthread_mutex_lock`/`unlock` around the cache are not modelled. `CanSixel` is one atomic step on a `modifies this` frame.
- Diagnostics: the `fprintf(stderr, ...)` messages are output only and are left out.
- External calls as parameters: `tigetstr`, `tigetflag`, `tigetnum`, `getenv`, `write`, `read` and `putp(tiparm(...))` are inputs of the model; nothing is called. `tiparm` expansion of `smkx` is not modelled, only whether writing it succeeds.
- The `errno` check distinguishes `EAGAIN` from other errors; this is the `WouldBlock`/`Failed` split of `Tty.Read`.
- memset: the `memset` of the record is the value `Interrogate.Zeroed`.
- In-place truncation: `terminfostr` writes a `'\0'` into the string ncurses owns, so a later `tigetstr` of the same name would see it truncated. The model returns the cut copy and leaves the database unchanged.
- NULL `gseq`: the case where `terminfostr` writes through a local variable is not modelled, because every call in the core passes a field.
- Interrogate.InterrogateTerminfo: only the fields the core sets are in the record. The rest of `tinfo` (defined in `internal.h`, which is not part of this model) is left out.
- Interrogate.ApplyNcv: nulls seven local copies of the style templates and stores them back together, rather than clearing each field of the record in turn; the resulting record is the same.
- Interrogate.HasAttr: the ncurses values of `WA_STANDOUT` … `WA_ITALIC` come from `curses.h`, which is not part of this model. The stand-ins 1, 2, 4, …, 64 keep the property the code relies on, seven distinct single bits. `ncv` holds terminfo attribute bits, while the code tests it against curses attribute bits. With the real values the tests may therefore not select the styles the terminal names. That depends on header values outside this model, so it is not stated as a property.
- CursorQuery.CursorYXGet: `row` and `column` are C `int`s that can overflow on very long digit runs. The model uses unbounded integers.
- SixelQuery.InterrogateSixel: `capid` is a C `int` that can overflow on a very long code. The model uses an unbounded integer.
- CursorQuery.CursorYXGet: the NULL checks on the `y`/`x` out-pointers become `Option` results, with both stored on success.
- CursorQuery.CursorYXGet: `used` is stated only on success and for a short write, not after a framing error.
- Blocking and retrying: the terminal's side is a finite `seq<Read>` that ends in end of file. It cannot express the `read` at `src/lib/terminfo.c:156` blocking for ever, nor the loop at `src/lib/terminfo.c:232-235` retrying without end on `EAGAIN`; neither query has a time-out.
- SixelQuery.InterrogateSixel: the `wlen < 0` test and the `size_t` comparison of `write`'s result are folded into `written != 3`.
- SixelCache.Notcurses: only the `ttyfd` and `sixel` fields of the context are modelled. Its construction and the rest of `notcurses_init` are not part of the core.
- Other files: the other files of the repository (rendering, input, the demos, the Rust bindings) are not part of this model.

## Findings

| source | as written | input that shows it | evidently intended | confidence | as-written member | corrected member |
|---|---|---|---|---|---|---|
| src/lib/terminfo.c:247-261 | a code is compared with 4 only when a `;` closes it; the `c` branch sets the final state without comparing the last code | `ESC [ ? 1 ; 4 c` reports no sixel support | sixel support whenever 4 is any code of the reply | not executed; follows from the code as written | SixelQuery.FinalSixelCodeMissed | SixelQuery.DaIntendedRoundTrip |
