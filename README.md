# TV remote bridge: command translation and device selection

This project models the core of a small bridge server. The server takes remote-control commands (key presses, text entry, app launches) over HTTP. It turns each one into `adb` invocations against a running Android TV emulator. It models four pieces of `server/tv_remote_server.py`:

- **Key-code resolution** (`get_key_code`). A fixed table of 22 Android key names maps each name to a numeric code. Any other name maps to `23` (centre/select).
- **Tool-path probing** (`get_adb_path`). The bridge tries three candidate `adb` executables in order. It keeps the first one whose `version` call exits 0.
- **Device discovery** (`get_emulator_id`, `check_emulator_status`). The bridge splits the output of `adb devices` into lines. It keeps the lines that contain both the substrings `emulator-` and `device`.
  - `emulator-5556` is preferred.
  - Otherwise the first TAB-separated field of each kept line is collected. The list is sorted in reverse, and its head is taken.
- **Command dispatch** (`execute_command`). A command of type `key`, `text` or `launch` becomes the exact sequence of argument vectors handed to `subprocess.run`. The result is a boolean. For `launch` there is one `monkey` fallback.

The `adb` tool is an oracle: a total function `Runner` from an argument vector to an `Outcome`. An `Outcome` is either a return code with the captured standard output, or `Raised`. `Raised` stands for a `subprocess.run` that raised: missing executable, expired timeout, or an invalid argument. Each method returns its result together with every argument vector of strings it handed to `subprocess.run`, in order, version probes and listings included. The one argument list that is not all strings, a launch with no package, makes `subprocess.run` raise before anything runs, and it is not recorded.

`execute_command` looks the tool up twice: once inside `get_emulator_id`, and once more with its own `get_adb_path` call. The model gives it two oracles. `discover` answers the calls of `get_emulator_id`, and `run` answers every later call. No argument vector occurs twice within either phase, so any sequence of answers the tool could give is some pair of oracles. In particular the tool can vanish after discovery, and the second lookup then fails.

Python's semantics are written out:

- `sub in s` is a substring test (`Text.Contains`).
- `s.split(sep)` keeps empty pieces (`Text.Split`, proved inverse to `Text.Join`).
- String comparison is lexicographic by code point (`LexOrder.Below`, proved a total order).
- `list.sort(reverse=True)` yields a non-increasing permutation (`LexOrder.SortDesc`).

Selection therefore follows string order, not numeric order, and the substring rules, not a parse of the device state.

Files:

- `wrappers.dfy`: `Option`.
- `text.dfy`: substring, split/join and the first TAB field.
- `lexorder.dfy`: Python string order, greatest element, reverse sort.
- `keycodes.dfy`: the key table.
- `adb.dfy`: the oracle, path probing and discovery.
- `commands.dfy`: the command record, argv construction and dispatch.

Details of the code that the model keeps:

- `execute_command` checks the command type before doing any discovery. A command of another type, or one with no `type`, fails without touching the tool at all.
- For `launch`, a first attempt that raises, for example by timing out, goes straight to the exception handler. It gets no `monkey` fallback, so a timeout is not treated like a nonzero exit.
- `check_emulator_status` is true for any emulator line, while `execute_command` also needs a non-empty identifier (`if not emulator_id`). A listing whose emulator lines all start with a TAB, none of them containing `emulator-5556`, gives the identifier `""`. The status is then true, yet every command fails.
- The table has 22 names.
- A missing `code` resolves to `23`. A missing `text` is sent as `"None"` (Python formats `None` that way). A missing `package` makes `subprocess.run` raise before anything runs, so the launch fails with no device addressed.

## Model

| member | source | states |
|---|---|---|
| Text.Split | server/tv_remote_server.py:296 | `split('\n')` gives at least one piece, and no piece contains the separator |
| Text.JoinSplit | server/tv_remote_server.py:296 | joining the pieces of a split with the separator gives the text back |
| Text.SplitJoin | server/tv_remote_server.py:149 | splitting a join of separator-free pieces gives the pieces back |
| Text.Contains | server/tv_remote_server.py:300 | `sub in s`: only a substring no longer than the text can be in it, and the empty string and every prefix of the text are in it |
| Text.FirstField | server/tv_remote_server.py:308 | `line.split('\t')[0]` is a TAB-free prefix of the line, followed by a TAB when shorter than the line |
| Text.ContainsPrefix | server/tv_remote_server.py:300 | a line containing a substring contains every prefix of it (so `emulator-5556` in a line implies `emulator-` in it) |
| LexOrder.Below | server/tv_remote_server.py:313 | Python's `<=` on strings: a prefix comes first, and a string is never below one whose first character is smaller |
| LexOrder.BelowTotal | server/tv_remote_server.py:313 | any two strings are comparable in Python's string order |
| LexOrder.BelowAntisymmetric | server/tv_remote_server.py:313 | two strings each at or below the other are equal |
| LexOrder.BelowTransitive | server/tv_remote_server.py:313 | the string order is transitive |
| LexOrder.Greatest | server/tv_remote_server.py:314 | the greatest candidate is one of the candidates and no candidate is above it |
| LexOrder.Insert | server/tv_remote_server.py:313 | inserting adds exactly one occurrence of the element (multiset) |
| LexOrder.InsertSorted | server/tv_remote_server.py:313 | inserting into a non-increasing list keeps it non-increasing |
| LexOrder.SortDesc | server/tv_remote_server.py:313 | `sort(reverse=True)` leaves a non-increasing permutation of the list |
| LexOrder.SortedHeadIsGreatest | server/tv_remote_server.py:313-314 | the head of any non-increasing permutation of the candidates is their greatest element |
| KeyCodes.KeyCode | server/tv_remote_server.py:324-351 | total: every name, even a missing one, gets a non-empty decimal code; a listed name gets its listed code and every other name gets `23` |
| KeyCodes.SystemKeyCodes | server/tv_remote_server.py:327-348 | power 26, home 3, menu 82, back 4, search 84, app switch 187 |
| KeyCodes.DpadKeyCodes | server/tv_remote_server.py:331-335 | d-pad up 19, down 20, left 21, right 22, centre 23 |
| KeyCodes.VolumeKeyCodes | server/tv_remote_server.py:336-338 | volume up 24, down 25, mute 164 |
| KeyCodes.MediaKeyCodes | server/tv_remote_server.py:339-346 | the eight media-transport keys get 85, 126, 127, 86, 87, 88, 89, 90 |
| KeyCodes.DefaultCodeExactly | server/tv_remote_server.py:326-351 | a name resolves to `23` exactly when it is missing, unknown, or `KEYCODE_DPAD_CENTER` |
| Adb.FirstAnswering | server/tv_remote_server.py:123-129 | the chosen position is the first candidate whose `version` probe exits 0; every earlier probe did not |
| Adb.AdbPath | server/tv_remote_server.py:115-130 | the path found is a candidate whose `version` probe exits 0; `None` only when no candidate answers |
| Adb.ProbeCalls | server/tv_remote_server.py:123-129 | the probes are the `version` calls of the candidates in list order, at least one, and every probe before the last did not answer |
| Adb.AdbPathIsFirstAnswering | server/tv_remote_server.py:117-130 | the path is the first candidate in list order that answers, and only the candidates up to it are probed; `None` exactly when none answers, after probing all |
| Adb.GetAdbPath | server/tv_remote_server.py:115-130 | the loop returns that path and issues exactly those probes |
| Adb.PreferredLineIsEmulatorLine | server/tv_remote_server.py:300 | a line accepted by the `emulator-5556` test is also accepted by the `emulator-` test |
| Adb.Candidates | server/tv_remote_server.py:305-309 | at most one collected identifier per line, and none contains a TAB |
| Adb.CandidatesAreFirstFields | server/tv_remote_server.py:305-309 | a string is collected exactly when it is the first TAB-field of a line containing `emulator-` and `device` |
| Adb.CandidatesEmptyIff | server/tv_remote_server.py:305-311 | the collected list is empty exactly when no line contains both `emulator-` and `device` |
| Adb.SelectEmulator | server/tv_remote_server.py:298-319 | the choice is `emulator-5556` or one of the collected first fields; there is none only when nothing was collected |
| Adb.SelectPrefers | server/tv_remote_server.py:299-302 | one line with `emulator-5556` and `device` yields `emulator-5556`, whatever else is listed |
| Adb.SelectGreatestCandidate | server/tv_remote_server.py:304-316 | otherwise the choice is a collected first field and the greatest of them in string order |
| Adb.SelectNoneIff | server/tv_remote_server.py:298-319 | no emulator is chosen exactly when no line contains both `emulator-` and `device` |
| Adb.EmulatorId | server/tv_remote_server.py:285-322 | an identifier is returned only when a tool path answers, `devices` does not raise, and some listing line contains `emulator-` and `device` |
| Adb.DiscoveryCalls | server/tv_remote_server.py:288-294 | discovery issues the probes and then at most one more call; each is a candidate executable with one subcommand |
| Adb.EmulatorIdNoneIff | server/tv_remote_server.py:285-322 | `get_emulator_id` gives `None` exactly when no tool path is found, the listing call raises, or no line is an emulator line |
| Adb.FirstAnsweringAgrees | server/tv_remote_server.py:123-129 | two tools that answer every probe alike yield the same path |
| Adb.EmulatorIdIgnoresExitCode | server/tv_remote_server.py:292-296 | the exit code of `devices` plays no part in the identifier: the same probes and listing give the same result |
| Adb.GetEmulatorId | server/tv_remote_server.py:285-322 | returns the identifier above (`None` when no path is found or `devices` raises) and issues the probes, then one `devices` call when a path is found |
| Adb.SelectFromListing | server/tv_remote_server.py:298-319 | the loop for `emulator-5556`, the collecting loop and the reverse sort with its head give exactly the selection above |
| Adb.CheckEmulatorStatus | server/tv_remote_server.py:132-171 | true exactly when a tool path exists, `devices` exits 0, and some listing line contains both `emulator-` and `device` |
| Adb.StatusFindsEmulator | server/tv_remote_server.py:144-162 | when the status check is true, `get_emulator_id` finds an identifier |
| Commands.QuotedText | server/tv_remote_server.py:223 | the text argument is the text between double quotes, and `"None"` when the text is missing |
| Commands.ControlCallsAppend | server/tv_remote_server.py:183-199 | the device-addressed calls of a concatenated trace are those of each part, in order |
| Commands.DiscoveryIsNotControl | server/tv_remote_server.py:123-142 | the `version` probes (lines 123-125) and the `devices` listing (lines 140-142, and the same call at 292-294) never address a device |
| Commands.Control | server/tv_remote_server.py:194-277 | every call the command-specific part issues, once the tool path and target are known, addresses the device with `-s` |
| Commands.Execution | server/tv_remote_server.py:173-283 | a command succeeds only with a known type, a target from discovery and a tool path from the second lookup; a command of a known type issues the discovery calls first |
| Commands.ExecuteCommand | server/tv_remote_server.py:173-283 | the step-by-step dispatch returns the result and issues the calls of `Execution` |
| Commands.UnknownKindIssuesNothing | server/tv_remote_server.py:176-279 | any type other than key/text/launch fails and issues no call at all |
| Commands.NoTargetNoControl | server/tv_remote_server.py:183-186 | with no identifier (or an empty one) the command fails after discovery and addresses no device |
| Commands.NoAdbNoControl | server/tv_remote_server.py:189-192 | with a target found but no tool path on the second lookup, the command fails after discovery and the probes, and addresses no device |
| Commands.SameToolFoundAgain | server/tv_remote_server.py:183-192 | when the tool stays the same after discovery, the second lookup finds it again, so the 189-192 branch needs a tool that vanishes in between |
| Commands.ToolWithTvPath | server/tv_remote_server.py:123-127 | a tool whose `adb` answers is found at the first candidate |
| Commands.TvListingNamesTv | server/tv_remote_server.py:300 | the listing `emulator-5556<TAB>device` is one line and passes the `emulator-5556` and `device` tests |
| Commands.OneLineListingSelectsTv | server/tv_remote_server.py:296-302 | any one-line listing that passes those tests selects `emulator-5556` |
| Commands.ToolWithTvFindsTv | server/tv_remote_server.py:285-302 | discovery against that tool returns `emulator-5556` |
| Commands.NoToolNoPath | server/tv_remote_server.py:123-130 | with every call raising, all three candidates are probed and no path is found |
| Commands.ToolVanishesScenario | server/tv_remote_server.py:183-192 | the home key with a tool that lists the TV emulator and then vanishes fails after discovery and three probes, with no device call: the second lookup can fail |
| Commands.ExecutionTrace | server/tv_remote_server.py:183-199 | with path and target, the trace is discovery, probes, then exactly the command's device calls |
| Commands.KeyCommand | server/tv_remote_server.py:194-206 | key: exactly one device call `[adb,-s,id,shell,input,keyevent,code]` with the resolved code; success is its exit code 0 |
| Commands.TextCommand | server/tv_remote_server.py:221-227 | text: exactly one device call, ending in the text between double quotes; success is its exit code 0 |
| Commands.LaunchControl | server/tv_remote_server.py:242-277 | once path and target are known, a launch issues the first attempt, then `monkey` exactly after a nonzero exit; success is either exiting 0 |
| Commands.LaunchSettingsFirst | server/tv_remote_server.py:242-246 | launching `com.android.tv.settings` first issues the `android.settings.SETTINGS` intent |
| Commands.LaunchOtherFirst | server/tv_remote_server.py:247-255 | launching any other package first issues the MAIN/LAUNCHER intent ending in the package |
| Commands.LaunchFallback | server/tv_remote_server.py:257-277 | the `monkey -p <package> 1` fallback is issued, once, exactly when the first attempt exits nonzero; success is the first attempt exiting 0 or the fallback exiting 0 |
| Commands.LaunchWithoutPackage | server/tv_remote_server.py:230-257 | a launch without a package fails and addresses no device |
| Commands.SuccessNeedsControl | server/tv_remote_server.py:173-283 | a command succeeds only if it addressed the device |
| Commands.HomeKeyScenario | server/tv_remote_server.py:194-203 | `KEYCODE_HOME` with a target issues exactly one device call, ending in `3`; success is its exit code 0 |

## Left out

- HTTP handling (`do_GET`, `do_POST`, `do_OPTIONS`, `log_message`): request and response plumbing, headers and JSON encoding.
- `get_local_ip` and `main`: socket I/O and the server's lifecycle.
- Console output (`print`): every `print` is assumed not to raise. Several sit inside the `try` of `execute_command`, among them the ✓ and ✗ lines at server/tv_remote_server.py:202, 205, 260, 263 and 274. If standard output cannot encode those characters, `print` raises `UnicodeEncodeError`, and the handler at line 281 returns `False`. A key press or launch that worked is then reported as failed. At line 263 the `monkey` fallback is skipped as well. The model does not capture this.
- Timeouts: a call that times out is an `Outcome` of `Raised`, the same as any other exception from `subprocess.run`. The length of each bound (5 or 10 seconds) is not modelled.
- Parsing the request body as JSON: a `Command` stands for an already parsed object whose fields are strings or absent. Field values that are not strings, and bodies that are not JSON objects, are not modelled.
- What the device shell makes of the quoted text argument: embedded quotes and metacharacters are passed through unescaped. The model ends at the argument vector.
