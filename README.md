# Snip helper decision core, modelled in Dafny

`claude_snip_helper.py` is a Windows helper for VS Code: after a
screen snip puts a CF_DIB bitmap on the clipboard, a left click in (or
over) a VS Code window saves that bitmap as a PNG and copies the file's
path to the clipboard. This project models the part of it that makes
decisions, with every operating-system query turned into an input:

- `Allowlist` (allowlist.dfy): the window-ownership classifier. A window
  is VS Code when it exists, its owning process can be inspected, and the
  executable name, lower-cased, is exactly one of `code.exe`,
  `code - insiders.exe`, `vscode.exe`.
- `Snapshot` (snapshot.dfy): the three module globals `last_snip_bytes`,
  `last_snip_seq`, `last_snip_ts`, as a `SnapshotStore` object and as a
  `Snapshot` value.
- `Poller` (poller.dfy): one iteration of the `_clip_monitor` loop as
  `ClipMonitor.Step`, specified by the pure `PollNext`; `Run` folds
  `PollNext` over a run of iterations.
- `Click` (click.dfy): the `_click_handler` gate chain as the pure
  `Decide` (event filter, scope, 200 ms suppression, freshness), and
  `HandleClick`, which records the save and the path copy in an
  `EffectLog`.
- `InstanceLock` (instance_lock.dfy): `_acquire_lock` / `_release_lock`
  as a held flag over a shared "port taken" flag.
- `Types` (types.dfy): bytes and `Option`.

Time is integer milliseconds. The inputs of a poll iteration are the
clipboard sequence number, whether CF_DIB is available, what the read
returned (`None` when it raised) and the time. The inputs of a click are
the mouse event, the owner of the foreground window and of the window
under the pointer (`NoWindow` for a null handle, `ProcessError` when the
process cannot be inspected), the time, the live sequence number and
whether CF_DIB is still present.

What is proved, in short: the snapshot is replaced all at once or not at
all, and over any run its payload, number and time all come from the
same poll iteration (`Poller.RunProvenance`); an accepted click saves
exactly the stored payload once, and a rejected one saves and copies
nothing; the suppression bound is inclusive at 200 ms; a click is never
accepted out of scope or once the clipboard has moved on; the name check
is an exact, case-insensitive match; release of the instance lock is
idempotent and a second instance is refused while the first holds it.

One consequence of the program as written, proved in
`Click.AcceptedPayloadIsLive`: before the poller has published anything,
the stored number is 0 and the payload empty, so if the live clipboard
number is 0 and a bitmap is present, an in-scope click is accepted with
an empty payload. Every other accepted payload is non-empty and was read
under the number the clipboard still shows.

## Model

| member | source | states |
|---|---|---|
| `Allowlist.LowerChar` | claude_snip_helper.py:98 | the lower-cased character is never an ASCII capital; capitals move up by 32 code points (`A` to `a`), every other character is kept |
| `Allowlist.Lower` | claude_snip_helper.py:98 | lower-casing keeps the length and lower-cases each character in place |
| `Allowlist.LowerOfLowerCase` | claude_snip_helper.py:98 | a name with no capital is its own lower-case form |
| `Allowlist.LowerIdempotent` | claude_snip_helper.py:98 | lower-casing yields a name with no capital, and doing it twice is doing it once |
| `Allowlist.LowerEqualIff` | claude_snip_helper.py:98 | two names have the same lower-case form iff they are equal ignoring ASCII case |
| `Allowlist.VsCodeExe` | claude_snip_helper.py:32 | `VS_CODE_EXE` holds three distinct names, each already lower case |
| `Allowlist.LowerInAllowlistIff` | claude_snip_helper.py:98 | because the allow-listed names are lower case, exact membership of the lower-cased name is a case-insensitive match against them |
| `Allowlist.IsVsCodeName` | claude_snip_helper.py:98 | `name.lower() in VS_CODE_EXE` holds iff the name equals one of the three allow-listed names up to case |
| `Allowlist.PidIsVsCode` | claude_snip_helper.py:96-100 | a process whose name cannot be read (`psutil.Error`) is not VS Code; otherwise it is iff its name matches the allowlist up to case |
| `Allowlist.IsVsCodeNameIgnoresCase` | claude_snip_helper.py:96-100 | names that differ only in case are classified alike |
| `Allowlist.LookupFailureIsNotVsCode` | claude_snip_helper.py:99-116 | a null window handle or a `psutil.Error` is never VS Code |
| `Allowlist.WindowIsVsCode` | claude_snip_helper.py:103-116 | a window (foreground or under the pointer) is VS Code iff the handle is non-null, the owner can be inspected and its name matches the allowlist up to case |
| `Allowlist.AcceptsMixedCase` | claude_snip_helper.py:32 | `Code.exe` is accepted |
| `Allowlist.AcceptsInsidersInCapitals` | claude_snip_helper.py:32 | `CODE - INSIDERS.EXE` is accepted |
| `Allowlist.RejectsPrefix` | claude_snip_helper.py:98 | `code` is rejected: membership is exact, not a prefix match |
| `Allowlist.RejectsTrailingSpace` | claude_snip_helper.py:98 | `code.exe ` is rejected: the name is not trimmed |
| `Snapshot.Initial` | claude_snip_helper.py:35-37 | the snapshot at start-up: empty payload, number 0, time 0 |
| `Snapshot.SnapshotStore.constructor` | claude_snip_helper.py:35-37 | the store starts as the initial snapshot |
| `Poller.Start` | claude_snip_helper.py:123 | on entering the loop `seq_prev` is the number read then and the snapshot is the initial one |
| `Poller.Publishes` | claude_snip_helper.py:127-131 | an iteration publishes iff the number changed, CF_DIB is available and the read returned non-empty data |
| `Poller.PollNext` | claude_snip_helper.py:126-134 | after one iteration `seq_prev` is the number just read, and the snapshot is the old triple or this iteration's (bytes read, number, time), never a mix |
| `Poller.Run` | claude_snip_helper.py:125-135 | the state after a run of loop iterations: unchanged for no iteration, otherwise `seq_prev` is the last number read |
| `Poller.UnchangedSequenceIsNoOp` | claude_snip_helper.py:126-127 | an unchanged number leaves `seq_prev` and the snapshot untouched |
| `Poller.ChangedSequenceAdvances` | claude_snip_helper.py:127-128 | a changed number is always stored in `seq_prev`, whatever the clipboard holds |
| `Poller.SnapshotUpdatedTogether` | claude_snip_helper.py:127-134 | afterwards the snapshot is the old triple or exactly (bytes read, current number, now); the new one exactly when the number changed, CF_DIB is available and the read is non-empty |
| `Poller.NoImageNoPublish` | claude_snip_helper.py:129-131 | no bitmap, a failed read or an empty read leaves the snapshot as it was |
| `Poller.PollNextWellFormed` | claude_snip_helper.py:131-134 | an iteration keeps the snapshot initial-or-non-empty |
| `Poller.RunProvenance` | claude_snip_helper.py:121-135 | over any run the snapshot is the initial one or bytes, number and time all come from one iteration that saw a number different from the previous one, saw CF_DIB and read those non-empty bytes |
| `Poller.RunWellFormed` | claude_snip_helper.py:121-135 | over any run the snapshot is initial or holds a non-empty payload |
| `Poller.RunSnapshotNotAhead` | claude_snip_helper.py:121-135 | with non-decreasing clipboard numbers, the stored number never exceeds `seq_prev` |
| `Poller.ClipMonitor.constructor` | claude_snip_helper.py:123 | `seq_prev` starts at the number read on entry |
| `Poller.ClipMonitor.Step` | claude_snip_helper.py:125-134 | one loop iteration moves `seq_prev` and the shared store exactly as `PollNext` says |
| `Click.ClickSuppressMs` | claude_snip_helper.py:29 | `CLICK_SUPPRESS_MS`, the suppression window, is 200 milliseconds |
| `Click.IsLeftDown` | claude_snip_helper.py:141-144 | the event filter: a ButtonEvent whose type is "down" and whose button is LEFT |
| `Click.InScope` | claude_snip_helper.py:150 | the scope gate: the foreground window or the window under the pointer is VS Code |
| `Click.WithinSuppression` | claude_snip_helper.py:154 | the suppression gate: at most `CLICK_SUPPRESS_MS` (200) milliseconds since the snapshot was taken, bound included |
| `Click.IsFresh` | claude_snip_helper.py:158 | the freshness gate: the live number equals the stored one and CF_DIB is still present |
| `Click.Decide` | claude_snip_helper.py:140-161 | a click is accepted iff it is a left-button press, in scope, more than 200 ms after the snip and the snapshot is still live; it then carries the stored payload; a rejection names the first failing gate |
| `Click.OnlyLeftDownIsConsidered` | claude_snip_helper.py:141-144 | anything but a ButtonEvent "down" with LEFT is ignored |
| `Click.OutOfScopeNeverAccepted` | claude_snip_helper.py:150-151 | if neither window is VS Code the click is rejected, whatever the clipboard holds |
| `Click.ForegroundAloneAccepts` | claude_snip_helper.py:150-161 | a VS Code foreground window alone lets a click through when the other gates pass, whatever lies under the pointer |
| `Click.PointerAloneAccepts` | claude_snip_helper.py:150-161 | a VS Code window under the pointer alone lets a click through when the other gates pass, with a foreground window that is not VS Code |
| `Click.SuppressionInclusive` | claude_snip_helper.py:154-155 | a click at most 200 ms after the snip, 200 included, is rejected |
| `Click.PastSuppressionAccepted` | claude_snip_helper.py:154-161 | past 200 ms a click passing the other gates is accepted with the stored payload |
| `Click.StaleNeverAccepted` | claude_snip_helper.py:158-159 | a changed live number or a missing bitmap rejects the click although the stored payload remains |
| `Click.UnseenChangeRejected` | claude_snip_helper.py:158-159 | with non-decreasing numbers, a click after a change the poller has not yet seen is rejected |
| `Click.AcceptedPayloadIsLive` | claude_snip_helper.py:121-161 | an accepted payload is non-empty and was read by a poll iteration under the live number, or is the empty initial one with live number 0 |
| `Click.SnipScenario` | claude_snip_helper.py:121-161 | snip at 0 ms, click at 50 ms suppressed, click at 500 ms saves the bitmap, after a text copy a click is stale |
| `Click.NonVsCodeScenario` | claude_snip_helper.py:150-151 | a fresh bitmap and a click outside VS Code: rejected, nothing saved |
| `Click.HandleClick` | claude_snip_helper.py:140-163 | an accepted click saves the stored payload exactly once and copies the returned path; a rejected one saves and copies nothing; the store is only read |
| `InstanceLock.AcquireNext` | claude_snip_helper.py:42-57 | acquire succeeds iff the port is free; afterwards the port is taken and held iff it succeeded |
| `InstanceLock.ReleaseNext` | claude_snip_helper.py:60-64 | after release nothing is held, and the port is freed iff this instance held it |
| `InstanceLock.ReleaseIdempotent` | claude_snip_helper.py:60-64 | releasing twice is releasing once |
| `InstanceLock.ReleaseWhenNotHeld` | claude_snip_helper.py:60-64 | releasing when nothing is held changes nothing |
| `InstanceLock.AcquireReleaseFreesPort` | claude_snip_helper.py:42-64 | acquire then release leaves the port free |
| `InstanceLock.InstanceGate.constructor` | claude_snip_helper.py:38 | an instance starts holding nothing |
| `InstanceLock.InstanceGate.Acquire` | claude_snip_helper.py:42-57 | acquiring moves the gate and the port exactly as `AcquireNext` says and keeps "held implies taken" |
| `InstanceLock.InstanceGate.Release` | claude_snip_helper.py:60-64 | releasing moves the gate and the port exactly as `ReleaseNext` says |
| `InstanceLock.TwoInstances` | claude_snip_helper.py:42-64 | a second instance is refused while the first holds the port, and succeeds after the first releases |

## Left out

- The Windows clipboard, window and process queries (`_seq`, `_dib_available`, `_read_dib`, `GetForegroundWindow`, `WindowFromPoint`, `GetWindowThreadProcessId`, `psutil.Process(pid).name()`): their results are inputs of the model.
- `mouse.get_position()`: the pointer position only serves to find the window under it, whose owner is an input.
- `_save_image` (PIL decoding, PNG encoding, the timestamped file name from the wall clock): the save is a recorded effect carrying the payload; its returned path, or its failure, is an input of `HandleClick`.
- `pyperclip.copy` and `print`: the copy is a recorded effect; console output is not modelled.
- The daemon thread, the mouse hook and the 50 ms sleep: each poll iteration and each click is one atomic step; interleavings inside a step (a torn read of the three globals, which the program does not guard with a lock) are not modelled.
- Clipboard sequence numbers are unbounded integers, so the 32-bit wrap-around of `GetClipboardSequenceNumber` is not modelled. The program only compares these numbers for equality, so nothing it does depends on this. `Poller.RunSnapshotNotAhead` and `Click.UnseenChangeRejected` assume numbers that never go down, and they say nothing about a run in which the counter wraps.
- `time.time()` floating-point seconds: time is integer milliseconds, and the suppression test is `now - ts <= 200` on those.
- The socket calls behind the lock (create, bind, listen, close on 127.0.0.1:19847): abstracted to the `taken` flag of a shared `Port`.
- `main` (platform check, exit codes, hook and unhook, the wait loop, `_release_lock` in `finally`) and the `SAVE_DIR.mkdir` at import: process plumbing and a filesystem side effect.
- `Allowlist.Lower`: lower-cases ASCII letters only, where Python's `str.lower` is Unicode-aware. For the three allow-listed names the verdict is the same either way: no non-ASCII character lower-cases to a single character that occurs in them (the Kelvin sign becomes `k`, and `İ` becomes two characters).
- `InstanceLock.InstanceGate.Acquire`: requires that nothing is held yet, since the program calls it once at start-up; calling it again while holding the port is not modelled.
- The short-circuit order of the OS queries in the scope and freshness tests (the window under the pointer is only looked up when the foreground window is not VS Code): with the observations as inputs the decision does not depend on it.
