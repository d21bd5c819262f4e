# portman, modelled in Dafny

portman lists the processes bound to network ports and kills them. It has an
interactive terminal session and a one-shot `portman kill <port>` command.
This project models the logic at its core and proves properties about it:

- **Scanner** (`scanner.dfy`) parses the text that `lsof -i -P -n` and
  `netstat -ano` print into port records. Duplicates are collapsed under the
  key `protocol-port-pid`. It also reads a process name from `tasklist`
  output and finds the first record on a given port.
- **Killer** (`killer.dfy`) kills one process. It sends SIGTERM, polls until
  the process is gone or the deadline passes, and falls back to SIGKILL. The
  operating system is an oracle record: the lookup error, each signal's
  error, and the outcomes of the liveness probes made before the deadline.
- **TuiModel** (`tui_model.dfy`) holds the session state: the initial
  state, the filter that derives the visible list, and the sort of a fresh
  scan.
- **TuiUpdate** (`tui_update.dfy`) is the session's reaction to a window
  size, a key, a finished scan or a finished kill. `Step` is the transition
  on a `State` value. `Session` is the object whose fields `Update` assigns
  one by one, and its contract is `Step`. A Bubble Tea command becomes a
  `Cmd` tag. The index-out-of-range panic becomes the `Panic` tag and leaves
  the state unchanged.
- **TuiView** (`tui_view.dfy`) covers string truncation and the window of
  table rows shown around the cursor.
- **KillCommand** (`kill_cmd.dfy`) is `portman kill`: argument checks, the
  direct kill of a single match, and the multi-select chooser used when the
  port has several processes. It then kills the chosen processes in turn.
  The command's result is a `Report`: its exit status, the lines it printed
  on each stream, the pids it tried to kill and each kill's result.
- **Version** (`version.dfy`) decides whether a released version is newer
  than the running one.
- **GoStrings** (`gostrings.dfy`) models the Go library functions the core
  relies on. These are `strings.Split`, `Fields`, `Join`, `ToLower`,
  `TrimSpace`, `Trim` and `TrimPrefix`, `strconv.Atoi` and `Itoa`, and
  `fmt.Sscanf("%d")`.

Points where the code's behaviour is easy to misread:

- The filter matches the record's decimal port number as well as its
  lower-cased process name, command and protocol
  (`internal/tui/model.go:86-90`).
- The cursor is reclamped after a refilter only when the filter is not
  blank (`internal/tui/model.go:78-81`); see "## Findings".
- A confirmed selection with nothing ticked is a nil slice, just like a
  cancellation. `executeKill` prints "Cancelled" for both, so the two cases
  cannot be told apart (`cmd/kill.go:63-66`, `cmd/kill.go:223-230`).
- Version parts are read with the `%d` verb (`internal/version/check.go:106-107`).
  Go's scanner accepts base prefixes and digit-separating underscores only for
  `%v` or unformatted scanning. Under `%d` the number is the run of ASCII digits
  after an optional sign, so "3_1" reads as 3 (`GoStrings.UnderscoreExample`).

## Model

| member | source | states |
|---|---|---|
| Scanner.UnixPort | internal/scanner/scanner.go:70-87 | an lsof address yields a port iff it contains ':' and the text after its last ':', cut at the first '(', parses to a nonzero integer; the port is that integer, so negative ports pass |
| Scanner.DedupKey | internal/scanner/scanner.go:96 | the key starts with the protocol and a dash and ends with a dash and the pid; with non-negative ports it tells records apart (`Scanner.DedupKeyInjective`) |
| Scanner.UnixRecord | internal/scanner/scanner.go:50-104 | a record comes only from a line with at least 9 fields whose field 1 parses to its pid; its port is nonzero, its name is field 0 and its protocol is field 7 lower-cased |
| Scanner.UnixRecordSpec | internal/scanner/scanner.go:49-104 | an lsof line yields record p iff all of these hold: it has at least 9 fields; field 1 parses to p's pid with no range check; field 8 gives p's port; the name is field 0; the protocol is field 7 lower-cased; the command is fields 9.. joined by single spaces, or the name when there are exactly 9 fields |
| Scanner.WindowsRecord | internal/scanner/scanner.go:137-178 | a record comes only from a line with at least 5 fields whose last field parses to its pid; its port is nonzero and its name and command are both lookup(pid) |
| Scanner.WindowsRecordSpec | internal/scanner/scanner.go:136-178 | a netstat line yields record p iff all of these hold: it has at least 5 fields; the last field parses to the pid; field 1 contains ':'; the text after its last ':' parses to a nonzero port. Then name and command are both lookup(pid) and the protocol is field 0 lower-cased |
| Scanner.ProcessNameFromTasklist | internal/scanner/scanner.go:189-202 | a failed tasklist run gives "unknown"; otherwise the result is the first comma-separated field of the trimmed output, with quotes trimmed. The no-field fallback is never reached |
| Scanner.Store | internal/scanner/scanner.go:95-104 | every entry of the map is stored under its own key |
| Scanner.Table | internal/scanner/scanner.go:96 | every entry of the dedup table sits under its record's `protocol-port-pid` string |
| Scanner.StoreLastWins | internal/scanner/scanner.go:47-105 | a key is in the map iff some record carries it, and it then holds the last record carrying it |
| Scanner.StoreDistinct | internal/scanner/scanner.go:98-104 | distinct keys of the map hold distinct records |
| Scanner.StoreRecords | internal/scanner/scanner.go:49-105 | the parsers' loop fills `portMap` exactly as storing the records from the first data line on, in order |
| Scanner.MapValues | internal/scanner/scanner.go:107-111 | the slice lists every map value exactly once, in whatever order the map yields |
| Scanner.ParseUnixOutput | internal/scanner/scanner.go:41-114 | the result lists the dedup table of the lines after the header, with no error path; output without a newline gives no records |
| Scanner.ParseWindowsOutput | internal/scanner/scanner.go:128-187 | the result lists the dedup table of the lines after the first four, with no error path; output with at most four lines gives no records |
| Scanner.UnixTableSource | internal/scanner/scanner.go:41-111 | a key is listed iff some line after the header yields a record with that key, and then it holds the record of the last such line |
| Scanner.WindowsTableSource | internal/scanner/scanner.go:128-184 | a key is listed iff some line after the first four yields a record with that key, and then it holds the record of the last such line |
| Scanner.DedupKeyInjective | internal/scanner/scanner.go:96 | for records with non-negative ports, equal key strings mean equal protocol, port and pid |
| Scanner.DedupKeyCollision | internal/scanner/scanner.go:170-178 | a negative port makes two records that differ in protocol and port share a key; the later one replaces the earlier |
| Scanner.FindByPort | internal/scanner/scanner.go:206-213 | nil iff no record has the port; otherwise the first record in input order that has it |
| Killer.WaitForTermination | internal/process/killer.go:85-115 | true iff some probe before the deadline sees the lookup or signal 0 fail; it stops at the first such probe. Every earlier probe found the process running, as `IsProcessRunning` defines it |
| Killer.KillOutcome | internal/process/killer.go:17-82 | the decision tree as a function of the pid and the operating system's answers: the signals sent are none, SIGTERM, or SIGTERM then SIGKILL, and the result fails iff the pid is invalid, the lookup fails, or a SIGKILL that was sent fails |
| Killer.KillProcess | internal/process/killer.go:17-82 | it returns exactly `KillOutcome`. One result and signal list per path: invalid pid or failed lookup sends nothing; "already finished" sends only SIGTERM; any other SIGTERM error sends SIGKILL with no wait; a graceful end sends only SIGTERM; a timeout sends exactly one SIGKILL. Each path's message is as written. The result fails iff the pid is invalid, the lookup fails, or a SIGKILL that was sent fails |
| TuiModel.Initial | internal/tui/model.go:38-52 | no ports, an empty view, cursor 0, every flag off and empty texts |
| TuiModel.Max | internal/tui/model.go:103-108 | the result is one of the arguments and at least both |
| TuiModel.Matches | internal/tui/model.go:86-90 | a port matches when its decimal number, lower-cased name, command or protocol contains the filter; every port matches the empty filter |
| TuiModel.Select | internal/tui/model.go:83-95 | a port is kept iff it is in the list and its number, name, command or protocol contains the filter; the result is no longer than the list |
| TuiModel.FilterView | internal/tui/model.go:76-95 | a blank filter (after trimming and lower-casing) shows every port; any other filter shows the selection |
| TuiModel.SelectAppend | internal/tui/model.go:83-93 | selection keeps the original order: it distributes over concatenation |
| TuiModel.SelectIdempotent | internal/tui/model.go:83-95 | selecting again with the same filter removes nothing more |
| TuiModel.Reclamp | internal/tui/model.go:97-100 | a cursor inside the list stays; one past it becomes max(0, len-1); a non-negative cursor ends inside a non-empty list |
| TuiModel.Refilter | internal/tui/model.go:75-101 | the view is recomputed from the ports and the text; only the view and the cursor change. As written, the cursor is kept for a blank filter and reclamped otherwise |
| TuiModel.RefilterIdempotent | internal/tui/model.go:75-101 | filtering twice leaves the state that filtering once gives |
| TuiModel.SortByNumber | internal/tui/model.go:65-68 | the array ends up sorted ascending by port number and is a permutation of its old contents |
| TuiModel.ScanPorts | internal/tui/model.go:59-71 | on error, no ports and the error; on success, no error and the scan's ports as a permutation sorted by number |
| TuiUpdate.NormalKey | internal/tui/update.go:30-64 | no normal-mode key changes the ports, the view or the filter text, and a panic leaves the state as it was |
| TuiUpdate.Step | internal/tui/update.go:12-91 | a panic comes only from a key and leaves the state as it was; only a successful scan replaces the ports; a kill is asked for only by a key in confirmation mode outside filter mode |
| TuiUpdate.InitialInv | internal/tui/model.go:46-51 | the initial state meets the session invariant and its cursor is safe |
| TuiUpdate.RefilterInv | internal/tui/model.go:75-101 | recomputing the view re-establishes the invariant (view equals the filter's view, cursor rule) |
| TuiUpdate.ClampedRefilterSafe | internal/tui/model.go:97-100 | with the reclamp applied whatever the filter, the cursor is always safe |
| TuiUpdate.RefilterSafe | internal/tui/update.go:93-113 | as written, a refilter that changes only the text or a mode flag keeps a safe cursor safe |
| TuiUpdate.MoveUpKeeps | internal/tui/update.go:35-38 | moving up keeps the invariant and a safe cursor safe |
| TuiUpdate.MoveDownKeeps | internal/tui/update.go:40-43 | moving down keeps the invariant and a safe cursor safe |
| TuiUpdate.AskToKillKeeps | internal/tui/update.go:56-63 | enter in normal mode keeps the invariant; from a safe cursor it keeps it safe and never panics |
| TuiUpdate.NormalKeyKeeps | internal/tui/update.go:31-64 | every normal-mode key keeps the invariant; from a safe cursor it keeps it safe and never panics |
| TuiUpdate.RuneKeeps | internal/tui/update.go:32-54 | the letter keys q, k, j, r and / keep the invariant; from a safe cursor they keep it safe and never panic |
| TuiUpdate.ConfirmKeyKeeps | internal/tui/update.go:115-139 | a key in confirmation mode keeps the invariant; from a safe cursor it keeps it safe and never panics |
| TuiUpdate.FilterKeyKeeps | internal/tui/update.go:93-113 | a key in filter mode keeps the invariant and, as written and corrected alike, a safe cursor safe |
| TuiUpdate.KeyPressKeeps | internal/tui/update.go:19-64 | any key press keeps the invariant; from a safe cursor it keeps it safe and never panics |
| TuiUpdate.ScanKeeps | internal/tui/update.go:66-76 | a finished scan keeps the invariant, on error and on success |
| TuiUpdate.StepInv | internal/tui/update.go:12-91 | every message keeps the invariant (view is the filter's view, cursor not negative, never filtering and confirming at once) |
| TuiUpdate.ScanSafeIff | internal/tui/update.go:66-76 | as written, a finished scan makes a safe cursor unsafe iff it succeeds under a blank filter with fewer (but some) ports than the cursor position |
| TuiUpdate.SafeLostIff | internal/tui/update.go:12-139 | as written, of all messages exactly that scan makes the cursor unsafe |
| TuiUpdate.PanicIff | internal/tui/update.go:56-133 | a message panics iff the cursor is unsafe, filter mode is off, and the key is enter (normal mode) or y/Y (confirmation mode) |
| TuiUpdate.ClampedStepSafe | internal/tui/update.go:12-91 | with the cursor always reclamped, no message makes a safe state unsafe or panics |
| TuiUpdate.ClampedNeverPanics | internal/tui/update.go:12-139 | with the cursor always reclamped, no sequence of messages from a safe state ever panics |
| TuiUpdate.StaleCursorPanics | internal/tui/model.go:78-81 | as written, scanning three ports, moving down twice, rescanning one port and pressing enter panics at the enter; the corrected model does not panic on that trace |
| TuiUpdate.NavigationBounds | internal/tui/update.go:35-43 | whatever the input field holds and under either variant, up goes to cursor-1 when the cursor is above 0, down to cursor+1 when it is below len-1, and otherwise neither moves. The cursor stays non-negative and inside a list it was inside, and only the cursor changes. On an empty list with the cursor at 0 nothing changes, but a stale cursor above 0 still moves up |
| TuiUpdate.NormalKeyEffects | internal/tui/update.go:31-64 | in normal mode ctrl+c and q quit; r sets `scanning` and the non-error status "Refreshing..." and asks for a scan; / enters filter mode; enter on a non-empty list with the cursor inside sets `confirmingKill` and the prompt for the port under the cursor, and does nothing on an empty list; every other key does nothing |
| TuiUpdate.FilterModeKeys | internal/tui/update.go:21-113 | filter mode takes every key, even with the confirmation flag set. esc/ctrl+c leave it, clear the text and show every port; enter leaves it and keeps the text; any other key edits the text and stays. Nothing kills or quits |
| TuiUpdate.ConfirmKeys | internal/tui/update.go:115-139 | whatever the input field holds and under either variant: unless it panics, confirmation always ends. y/Y on a non-empty list kills the pid under the cursor as it is at that moment; any other key, or an empty list, reports "Kill cancelled" with no command |
| TuiUpdate.ScanCompleteEffect | internal/tui/update.go:66-76 | `scanning` is always cleared. An error keeps both lists and sets an error status. A success replaces the ports, refilters and reports "Found N active port(s)" |
| TuiUpdate.KillCompleteEffect | internal/tui/update.go:78-88 | a successful kill sets a non-error status and asks for a rescan; a failed one sets an error status and asks for nothing; only the status changes |
| TuiUpdate.Session.constructor | internal/tui/model.go:38-52 | the new session's fields are the initial state |
| TuiUpdate.Session.FilterPorts | internal/tui/model.go:75-101 | the append loop and the reclamp leave the fields exactly as `Refilter` says, as written |
| TuiUpdate.Session.HandleFilterMode | internal/tui/update.go:93-113 | the fields and the command follow the filter-mode transition |
| TuiUpdate.Session.HandleConfirmMode | internal/tui/update.go:115-139 | the fields and the command follow the confirmation transition |
| TuiUpdate.Session.HandleNormalMode | internal/tui/update.go:30-64 | the fields and the command follow the normal-mode transition |
| TuiUpdate.Session.Update | internal/tui/update.go:12-91 | the fields and the command follow `Step` as written, so every lemma about `Step` applies to the object |
| TuiView.Truncate | internal/tui/view.go:121-126 | a string that fits is returned as is; a longer one becomes exactly n characters, its first n-3 followed by "..."; the result is never longer than the input or max(n, 0) |
| TuiView.TruncateIdempotent | internal/tui/view.go:121-126 | truncating a truncated string changes nothing |
| TuiView.ShownCommand | internal/tui/view.go:73-76 | the command column is truncation to 30 and never exceeds 30 characters |
| TuiView.ScrollWindow | internal/tui/view.go:49-66 | maxRows = max(height-12, 5). A list that fits shows [0, n); a longer one shows exactly maxRows rows inside [0, n), and the window holds a valid cursor. Away from the edges it starts half a window above the cursor; with the cursor in the top half window it starts at 0, and when half a window below the cursor would pass the end it ends at n |
| Version.Parts | internal/version/check.go:95-101 | one leading 'v' is dropped and the rest is split at dots into at least one part |
| Version.Numbers | internal/version/check.go:105-107 | one 64-bit number per dot-separated part, the i-th read from the i-th part by `ScanInt`, whose reading the next three rows state |
| GoStrings.ScanIntDigits | internal/version/check.go:105-107 | a part that starts with digits, after an optional sign, reads as their value up to the first non-digit, and as 0 when that value does not fit in 64 bits |
| GoStrings.ScanIntNoDigits | internal/version/check.go:105-107 | a part with no digit after its optional sign reads as 0, the value the zeroed variable keeps |
| GoStrings.ScanIntItoa | internal/version/check.go:105-107 | every 64-bit number reads back as itself from its decimal form |
| GoStrings.UnderscoreEndsNumber | internal/version/check.go:105-107 | an underscore ends the digit run under `%d`: digits followed by '_' read as the digits' value, whatever comes after |
| GoStrings.UnderscoreExample | internal/version/check.go:105-107 | "3_1" reads as 3 |
| Version.IsNewer | internal/version/check.go:94-118 | true iff, at the first common position where the numbers differ, the latest version's number is larger |
| Version.FirstDifferenceDecides | internal/version/check.go:109-113 | a first difference where the current version is larger rules out newer |
| Version.NoDifferenceNotNewer | internal/version/check.go:116-117 | versions that agree on every common position are not newer |
| Version.Irreflexive | internal/version/check.go:104-117 | no version is newer than itself |
| Version.Asymmetric | internal/version/check.go:104-114 | two versions are never each newer than the other |
| Version.ExtraPartsIgnored | internal/version/check.go:104-117 | parts beyond the shorter version change the answer in neither direction |
| Version.PatchAgainstShorter | internal/version/check.go:104-117 | "1.2.1" is not newer than "v1.2" |
| Version.UnreadablePartIsZero | internal/version/check.go:105-107 | a part `%d` cannot read counts as 0: "1.x" reads as [1, 0] and "1.1" is newer |
| KillCommand.StartMenu | cmd/kill.go:204-208 | the chooser starts on the first row with nothing ticked, not quitting and not cancelled |
| KillCommand.Flip | cmd/kill.go:125 | toggling flips row i (a missing entry reads as unticked) and no other row |
| KillCommand.MenuCursorBounds | cmd/kill.go:105-112 | the cursor stays within [0, len+1] and moves by at most one row |
| KillCommand.MenuTicks | cmd/kill.go:123-131 | only the row under the cursor can change its tick, and it does iff the key is space on a candidate row or enter on a row that is neither action |
| KillCommand.MenuQuits | cmd/kill.go:101-122 | the chooser quits iff the key is ctrl+c, q or esc, or enter on one of the two action rows. It is cancelled iff it was already, or the key is one of the three, or enter on "Cancel" |
| KillCommand.MenuStep | cmd/kill.go:97-135 | a key never changes the choices or the port; a key that quits sets `quitting`; only a quitting key can set `cancelled` |
| KillCommand.RunMenu | cmd/kill.go:210-217 | the loop stops at the first quitting key with `quitting` set and the choices unchanged |
| KillCommand.Checked | cmd/kill.go:223-228 | the result holds exactly the choices on ticked rows and is no longer than the choices |
| KillCommand.CheckedCount | cmd/kill.go:223-228 | the result has one entry per ticked row |
| KillCommand.TickedRows | cmd/kill.go:224-225 | the ticked row numbers below n, each once, in strictly increasing order |
| KillCommand.CheckedInOrder | cmd/kill.go:223-228 | the result is the choices at the ticked rows in row order: entry k is `choices[TickedRows(...)[k]]` |
| KillCommand.CheckedAllOrNone | cmd/kill.go:223-230 | ticking every row gives all choices in order; ticking none gives nothing |
| KillCommand.NilIfEmpty | cmd/kill.go:223-230 | an empty append result is Go's nil slice |
| KillCommand.Chooser.constructor | cmd/kill.go:204-208 | the new chooser's fields are the start menu |
| KillCommand.Chooser.Update | cmd/kill.go:97-135 | the fields and the quit flag follow `MenuStep` |
| KillCommand.ShowSelectionMenu | cmd/kill.go:203-231 | it finishes iff some key quits. A cancelled chooser gives nil; a confirmed one gives the ticked choices in row order (`KillCommand.CheckedInOrder`), which is nil when none is ticked |
| KillCommand.ResultLine | cmd/kill.go:76-80 | an outcome goes to stdout iff the kill succeeded |
| KillCommand.KillLinesAt | cmd/kill.go:73-81 | selected process i owns output lines 2i (its heading) and 2i+1 (its outcome) |
| KillCommand.AllLine | cmd/kill.go:69-71 | at most one line, present iff every match was selected |
| KillCommand.KillAll | cmd/kill.go:73-81 | every selected process is killed in order whatever earlier kills gave: result i is `KillOutcome` of pid i under the k-th answers; one heading and one outcome line each; an invalid pid reports "Invalid PID" |
| KillCommand.PrintedPortAccepted | cmd/kill.go:20-29 | a port from 1 to 65535, written in decimal, passes the argument checks as that number |
| KillCommand.ExecuteKill | cmd/kill.go:14-82 | one exact report per branch: usage, invalid number and out-of-range port exit 1 before any scan; scan error and no match exit 1; a single match is killed, its result is `KillOutcome` of its pid, and the exit status is 1 iff that kill fails; several matches go to the chooser ("Cancelled" on cancel or an empty selection, otherwise each chosen pid killed in order with exit 0, result i being `KillOutcome` of chosen pid i). Only pids found on the requested port are ever killed |

## Left out

- Running `lsof`, `netstat` and `tasklist` is not modelled (`ScanPorts`, `scanPortsUnix`, `scanPortsWindows`, the `exec` in `getProcessNameWindows`). Their text output, the Windows pid-to-name lookup and the result of `scanner.ScanPorts` are parameters.
- `scanner.FindAllByPort` is called by `executeKill` but is not part of this model. It is a function parameter of `ExecuteKill`.
- Real signals and wall-clock time: the operating system's answers and the probes made before the two-second deadline are an oracle. The length of the wait is not modelled.
- Concurrency: scans and kills running in the background are not modelled. Their completions are messages folded in order.
- The Bubble Tea runtime, `Init`, `tea.NewProgram` and its `Run` error (which exits with status 1), and the text input's own editing are not modelled. A filter-mode key carries the text the input holds afterwards. A chooser whose keys never quit ends with the `Waiting` status.
- Rendering is not modelled: `Model.View` beyond truncation and the row window, `selectionModel.View`, styles and colours, `cmd/root.go`, `cmd/help.go`.
- The update check's HTTP request, cache file and timing in `internal/version/check.go` are not modelled; only `isNewer` is.
- Go map iteration order: the parsers' result is specified as listing each table entry once, in an unspecified order.
- Strings are sequences of characters. Go's `len` and slicing count bytes, so truncation of non-ASCII text is not modelled byte-exactly.
- `ToLower`, `TrimSpace` and `Fields` handle ASCII letters and spaces only, not Unicode case folding or white space.
- GoStrings.ScanInt: `Sscanf("%d")` is modelled as reading an optional sign and the leading digits of the part, with 0 when there are no digits or the value overflows 64 bits. The leading white space that the verb skips is not skipped here.
- GoStrings.Atoi: the int64 range is enforced; Go's `int` is taken to be 64 bits.
- Panics: an index out of range yields the `Panic` command and leaves the state as it was. What follows a Go panic, the program ending, is not modelled.
- The deduplication key is the string the code formats, not a tuple. It is proved injective for records with non-negative ports. `Scanner.DedupKeyCollision` shows a collision between a record with a negative port and one whose protocol ends in '-'; which other collisions negative ports allow is not characterised.
- TuiView.Truncate: requires n >= 3 when the string does not fit, where Go would panic slicing; the view only calls it with 20.

## Findings

| source | as written | input that shows it | evidently intended | confidence | as-written member | corrected member |
|---|---|---|---|---|---|---|
| internal/tui/model.go:78-81 | `filterPorts` returns early for a blank filter, before the cursor is reclamped. `Update` then indexes `filteredPorts[cursor]` on enter (`update.go:59`) and on y/Y (`update.go:121`), guarded only by a non-empty list. The stale cursor also survives a scan that finds nothing, and up still moves it over the empty list | scan three ports, press down twice (cursor 2), a rescan finds one port, press enter | reclamp the cursor whatever the filter, so it stays inside a non-empty list | not executed | TuiUpdate.StaleCursorPanics | TuiUpdate.ClampedNeverPanics |
