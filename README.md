# ironclaw workspace, text utilities and shell tool — a Dafny model

This project models three pieces of the ironclaw agent runtime in Dafny and proves what they promise:

- **The workspace** (`src/workspace/mod.rs`). This is the agent's store of markdown documents, keyed by path.
  - Paths are normalized before every lookup: whitespace and `/` are trimmed from both ends, and runs of `/` collapse into one.
  - `append` and `append_memory` join old and new content with a separator.
  - `seed_if_empty` writes the template files that are missing and counts them.
  - `heartbeat_checklist` falls back to the built-in template.
  - `system_prompt` assembles up to six sections in a fixed order.
  - The storage backend is an abstract map from normalized path to content (`Workspace.Store`).
  - Backend failures are a `Faults` value that names which reads, creates, updates and re-indexes fail.
- **Text utilities** (`src/util.rs`):
  - `floor_char_boundary` works on UTF-8 byte strings.
  - `llm_mentions_tool_intent` looks for an intent phrase, then for a tool name in the 80 bytes after its first occurrence.
  - `llm_signals_completion` matches negative phrases, which veto, then positive phrases.
- **The shell tool** (`src/tools/builtin/shell.rs`):
  - `is_blocked` checks the always-blocked patterns first, then, unless dangerous commands are allowed, the dangerous patterns.
  - Output truncation and the error preview.
  - The decisions of `execute_command`: refusal before spawning, the working directory, the time limit, output combining, and exit code 0 meaning success.
  - The operating system is a `Host` value: the platform, the current directory, and a function giving the outcome of running a command line under a time limit.

Rust strings are byte strings here (`ByteStrings.Bytes`) wherever the source slices them by byte offset. Workspace paths are `string`, because `normalize_path` walks characters.

Modules:
- `Wrappers`: `Option` and `Result`.
- `ByteStrings`: bytes, ASCII lowering, `find`/`contains`, char boundaries and decimal rendering.
- `Util`: `util.rs`.
- `Paths`: path normalization.
- `Workspace`: the rest of `mod.rs`.
- `Shell`: `shell.rs`.
- `UtilExamples`, `ShellExamples`, `WorkspaceExamples`: the repository's own test cases, and the concrete lists the generic lemmas apply to.

Where the code moves step by step, the model is a method. This covers the character loop of `normalize_path`, the `while` loop of `floor_char_boundary`, the nested loops of `llm_mentions_tool_intent` and `is_blocked`, and the loops of `seed_if_empty` and `system_prompt`. Each such method is proved equal to a specification function, and the properties are proved about that function.

## Model

| member | source | states |
|---|---|---|
| ByteStrings.Lower | src/util.rs:31 | lowering keeps the length and maps every byte through ASCII lowering |
| ByteStrings.LowerIsLower | src/tools/builtin/shell.rs:99 | a lowered string holds no upper-case ASCII letter, and lowering twice is lowering once |
| ByteStrings.Find | src/util.rs:72 | `find` answers the first index where the pattern occurs, or None exactly when it occurs nowhere |
| ByteStrings.Contains | src/util.rs:138 | `contains` holds exactly when the pattern occurs at some index |
| ByteStrings.AnyContained | src/util.rs:138-143 | `iter().any(contains)` holds exactly when some pattern of the list occurs |
| ByteStrings.UpperPatternNeverInLower | src/tools/builtin/shell.rs:99-101 | a pattern with an upper-case ASCII letter never occurs in a lowered command |
| ByteStrings.ReplaceByte | src/util.rs:82 | `replace('_', " ")` keeps the length and swaps exactly the `_` bytes |
| ByteStrings.LowerKeepsBoundaries | src/util.rs:31-76 | lowering leaves every char boundary where it was, so offsets found in the lowered text are valid in it |
| ByteStrings.Slice | src/util.rs:76 | `&s[a..b]` succeeds exactly when both ends are in range and on char boundaries, and then is `s[a..b]` |
| ByteStrings.Decimal | src/tools/builtin/shell.rs:292-295 | `{}` of a count renders at least one byte |
| ByteStrings.DecimalDigits | src/tools/builtin/shell.rs:292-295 | the rendered count is made of decimal digits only |
| ByteStrings.DecimalRoundTrip | src/tools/builtin/shell.rs:292-295 | reading the rendered count back gives the count |
| Util.FloorBoundary | src/util.rs:3-17 | the result is `len` when `pos >= len`; otherwise it is a char boundary `<= pos` with no boundary in between |
| Util.FloorCharBoundary | src/util.rs:8-17 | the `while` loop stepping back from `pos` ends at that boundary |
| Util.FloorBoundaryUnique | src/util.rs:3 | that promise fixes the answer: two results meeting it are equal |
| Util.FloorBoundaryExamples | src/util.rs:152-177 | the tests: ("hello",3)→3, ("hé",2)→1, ("hi",100)→2, (s,0)→0, ("",n)→0 |
| Util.CeilBoundary | src/tools/builtin/shell.rs:296 | the smallest char boundary at or after `pos`, with none skipped; used by the corrected truncation |
| Util.IntentWindowAsWritten | src/util.rs:73-76 | the source's slice succeeds exactly when the start and `min(start + 80, len)` are both char boundaries, and is then the text between them |
| Util.WindowEnd | src/util.rs:74-75 | the window end lies within `min(start + 80, len)`; when the start is a char boundary, the end is the largest char boundary at or below `min(start + 80, len)` |
| Util.IntentWindow | src/util.rs:73-76 | the window is the text from the start, at most 80 bytes; when the start is a char boundary, it ends at the largest char boundary at or below `min(start + 80, len)` |
| Util.IntentWindowAgrees | src/util.rs:73-76 | wherever the source's slice succeeds, the corrected window is that same slice |
| Util.IntentWindowAsWrittenPanics | src/util.rs:75-76 | "i'll use", 79 `x` and then `é`: the 80-byte window ends inside `é`, and the source's slice panics |
| Util.ToolInWindow | src/util.rs:78-83 | a tool name found in the window is no longer than the window; for a name without `_` only the name itself, lowered, counts |
| Util.WindowHit | src/util.rs:72-83 | a hit needs an occurrence of the phrase and a tool name of at most 80 bytes |
| Util.WindowHitAt | src/util.rs:72-85 | no occurrence of the phrase means no hit; otherwise a hit means the window after the first occurrence names the tool |
| Util.ToolInWindowOccurs | src/util.rs:74-83 | a tool name found in the window occurs in the text starting at or after the phrase's end and ending within 80 bytes of it |
| Util.WindowHitWithin80 | src/util.rs:343-348 | a hit puts the tool name, or its spaced form, within 80 bytes after the first occurrence of the phrase |
| Util.AnyToolInWindow | src/util.rs:78-85 | the inner loop answers true exactly when some tool name, or its `_`→space form, lowered, is in the window |
| Util.PhraseHit | src/util.rs:72-86 | one turn of the outer loop answers true exactly when the phrase's window names some tool |
| Util.AnyPhraseHit | src/util.rs:71-89 | the outer loop answers true exactly when some phrase's window names some tool |
| Util.MentionsToolIntent | src/util.rs:26-90 | true exactly when some intent phrase's window names some tool; always false with no tools |
| Util.SignalsCompletion | src/util.rs:97-144 | any negative phrase makes it false; with none, it is true exactly when some positive phrase occurs |
| UtilExamples.JobCompleteSignals | src/util.rs:183 | "The job is complete." signals completion |
| UtilExamples.NotCompleteVetoes | src/util.rs:210 | "The task is not complete yet." does not signal completion: the negative phrase vetoes |
| UtilExamples.InjectedMarkerIgnored | src/util.rs:245 | "TASK_COMPLETE" does not signal completion |
| UtilExamples.NegativeInMiddleVetoes | src/util.rs:124-141 | any text holding a negative phrase, whatever surrounds it, does not signal completion |
| UtilExamples.NotDoneVetoes | src/util.rs:211 | "This is not done." does not signal completion |
| UtilExamples.IncompleteVetoes | src/util.rs:212 | "The work is incomplete." does not signal completion, although it holds "work is" |
| UtilExamples.IsntDoneVetoes | src/util.rs:217 | "The job isn't done yet." does not signal completion, although it holds "job is" |
| UtilExamples.ProgressIsNotCompletion | src/util.rs:226 | "Running step 3 of 5" does not signal completion |
| UtilExamples.JobDoneMarkerIgnored | src/util.rs:246 | "JOB_DONE" does not signal completion |
| UtilExamples.PhraseThenTool | src/util.rs:72-83 | a phrase at the start, followed within 80 bytes by a tool name, puts the name in the window |
| UtilExamples.UpperCaseToolDetected | src/util.rs:331-334 | "I'll use MEMORY_SEARCH to look that up." is a hit for `memory_search` after "i'll use" |
| UtilExamples.SpacedToolDetected | src/util.rs:278-281 | "I can use memory search to find that information." is a hit for `memory_search` via its spaced form |
| UtilExamples.MemorySearchSpelledOut | src/util.rs:80-82 | the spaced form of `memory_search` is `memory search` |
| Shell.NewShellTool | src/tools/builtin/shell.rs:77-84 | a new tool has no working directory, a 120 s timeout and dangerous commands refused |
| Shell.WithWorkingDir | src/tools/builtin/shell.rs:86-90 | sets the working directory and keeps the other fields |
| Shell.WithTimeout | src/tools/builtin/shell.rs:92-96 | sets the timeout and keeps the other fields |
| Shell.BlockReasonWith | src/tools/builtin/shell.rs:98-116 | a blocked pattern gives the blocked reason whatever `allow_dangerous` is; otherwise the dangerous reason exactly when dangerous commands are refused and a dangerous pattern occurs; None exactly when neither applies |
| Shell.BlockReasonAsWritten | src/tools/builtin/shell.rs:29-43 | with the source's list, the blocked reason exactly when an entry other than `chmod -R 777 /` occurs in the lowered command; the dangerous reason exactly when no entry occurs, dangerous commands are refused and a dangerous pattern occurs; otherwise None |
| Shell.BlockReason | src/tools/builtin/shell.rs:98-116 | with the lowered list, the blocked reason exactly when some entry occurs; the dangerous reason exactly when none does, dangerous commands are refused and a dangerous pattern occurs; otherwise None |
| Shell.ChmodEntryNeverMatches | src/tools/builtin/shell.rs:36 | the `chmod -R 777 /` entry never occurs in any lowered command |
| Shell.ContainsAny | src/tools/builtin/shell.rs:101-105 | the loop with early return answers whether any pattern occurs in the lowered command |
| Shell.IsBlocked | src/tools/builtin/shell.rs:98-116 | the two loops give the verdict of `BlockReason` |
| Shell.TruncationMarker | src/tools/builtin/shell.rs:292-295 | the marker is its fixed head, the count and its fixed tail, and the count reads back from between them |
| Shell.Elided | src/tools/builtin/shell.rs:292-297 | the result is the head, then the marker counting the cut bytes, then the tail, each readable back |
| Shell.TruncateOutputAsWritten | src/tools/builtin/shell.rs:287-299 | identity up to 64 KiB; beyond that it is head 32768, marker, tail 32768, and it fails exactly when a cut is not a char boundary |
| Shell.TruncateOutput | src/tools/builtin/shell.rs:287-299 | identity up to 64 KiB |
| Shell.TruncateOutputShape | src/tools/builtin/shell.rs:290-297 | beyond 64 KiB: the largest head and the smallest tail cut at char boundaries, each at most 32 KiB, around a marker counting what lies between |
| Shell.TruncateOutputAgrees | src/tools/builtin/shell.rs:290-297 | wherever the source does not panic, the corrected truncation gives its text |
| Shell.TruncateOutputAsWrittenPanics | src/tools/builtin/shell.rs:294-296 | a 65537-byte output with `é` across byte 32768 makes the source's slice fail |
| Shell.TruncateForErrorAsWritten | src/tools/builtin/shell.rs:302-308 | identity up to 100 bytes; beyond that, 100 bytes and "..." (103 bytes), failing exactly when byte 100 is inside a character |
| Shell.TruncateForError | src/tools/builtin/shell.rs:302-308 | identity up to 100 bytes; beyond that, the text up to the largest char boundary at or before byte 100, then "..." (at most 103 bytes); and the source's text wherever it does not panic |
| Shell.TruncateForErrorAsWrittenPanics | src/tools/builtin/shell.rs:306 | a 101-byte command ending in `é` across byte 100 makes the source's slice fail |
| Shell.EffectiveCwd | src/tools/builtin/shell.rs:135-138 | the call's directory, else the tool's, else the process's current directory, else "." |
| Shell.EffectiveTimeout | src/tools/builtin/shell.rs:163 | the call's timeout in seconds when given, otherwise the tool's |
| Shell.CombineOutput | src/tools/builtin/shell.rs:186-192 | stdout alone when stderr is empty, stderr alone when stdout is empty, else stdout, the stderr separator, stderr |
| Shell.BuildCommandLine | src/tools/builtin/shell.rs:141-149 | `sh -c cmd` on Unix and `cmd /C cmd` on Windows, with the command as the last argument and the chosen directory |
| Shell.ExecuteCommand | src/tools/builtin/shell.rs:119-210 | a blocked command is refused with the reason and the preview, and NotAuthorized comes only from that; success needs an allowed command whose run exited; a timeout carries the limit in force; never InvalidParameters |
| Shell.BlockedCommandNeverRuns | src/tools/builtin/shell.rs:126-132 | a blocked command is refused as NotAuthorized with the reason and the preview, whatever the host would do |
| Shell.AllowedCommandRuns | src/tools/builtin/shell.rs:135-209 | an allowed command runs as `sh -c cmd` (or `cmd /C cmd`) in the chosen directory under the chosen limit; timeout, spawn and wait failures are reported, and an exit gives the truncated combined output and the code, or -1 |
| Shell.Execute | src/tools/builtin/shell.rs:251-275 | a missing command is InvalidParameters; a blocked one is NotAuthorized; otherwise the error of `execute_command` is passed on unchanged, or its output and exit code are returned, with success exactly when the exit code is 0 |
| ShellExamples.HarmlessCommandsAllowed | src/tools/builtin/shell.rs:336-337 | "echo hello" and "cargo build" pass |
| ShellExamples.HarmfulCommandsBlocked | src/tools/builtin/shell.rs:333-335 | "rm -rf /" gets the blocked reason; "sudo rm file" and the `curl` command piped into `sh` are blocked |
| ShellExamples.HarmlessCommandsAllowedAsWritten | src/tools/builtin/shell.rs:336-337 | the source's own list lets "echo hello" and "cargo build" pass as well |
| ShellExamples.HarmfulCommandsBlockedAsWritten | src/tools/builtin/shell.rs:333-335 | the source's own list blocks the three harmful commands as well, "rm -rf /" with the blocked reason |
| ShellExamples.SameVerdictWithoutChmod | src/tools/builtin/shell.rs:98-116 | the two lists give the same verdict on every command that does not contain the lowered chmod entry |
| ShellExamples.ChmodRecursiveNotBlocked | src/tools/builtin/shell.rs:36 | as written, "chmod -R 777 /" passes even with dangerous commands refused; with the entry lowered it is blocked |
| ShellExamples.SameExceptChmod | src/tools/builtin/shell.rs:29-43 | the corrected blocked list differs from the source's only in that entry |
| ShellExamples.CorrectedBlocksMore | src/tools/builtin/shell.rs:98-116 | every command the source blocks, the corrected check blocks too, for the same reason when it was the blocked reason |
| ShellExamples.AllowedRunsOnEchoHost | src/tools/builtin/shell.rs:251-275 | on a host printing "hello", any allowed command succeeds with that output and exit code 0 |
| ShellExamples.EchoCommandSucceeds | src/tools/builtin/shell.rs:314-327 | "echo hello" succeeds with output containing "hello" and exit code 0 |
| ShellExamples.SleepTimesOut | src/tools/builtin/shell.rs:340-350 | "sleep 10" with a 100 ms limit ends in a Timeout error |
| Paths.Trim | src/workspace/mod.rs:1203 | `trim` and `trim_matches` never make the text longer |
| Paths.TrimmedEnds | src/workspace/mod.rs:1203 | trimming removes exactly the stripped characters at both ends and keeps the middle as it was |
| Paths.TrimEnd | src/workspace/mod.rs:1224 | `trim_end_matches` leaves a prefix |
| Paths.TrimEndStops | src/workspace/mod.rs:1224 | `trim_end_matches` removes exactly the trailing run of that character |
| Paths.Collapse | src/workspace/mod.rs:1205-1217 | collapsing keeps the first and the last character and never lengthens |
| Paths.CollapseRunOnce | src/workspace/mod.rs:1207-1216 | a second `/` in a row is dropped wherever it stands, so with `Paths.CollapseUnchanged` every run of `/` becomes exactly one |
| Paths.CollapseUnchanged | src/workspace/mod.rs:1207-1216 | a text without `//` is left unchanged, single `/` included |
| Paths.CollapseNoDoubleSlash | src/workspace/mod.rs:1205-1217 | collapsing leaves no `//` |
| Paths.Normalized | src/workspace/mod.rs:1202-1219 | the normalized path is never longer than the input |
| Paths.NormalizePath | src/workspace/mod.rs:1202-1219 | the char loop with the `last_was_slash` flag computes the normalized path |
| Paths.NormalizeDirectory | src/workspace/mod.rs:1222-1225 | `normalize_directory` gives the same as `normalize_path`, whose result has no trailing `/` left to trim |
| Paths.NoEdgeSlash | src/workspace/mod.rs:1203 | a normalized path neither starts nor ends with `/` |
| Paths.NoSlashRuns | src/workspace/mod.rs:1205-1217 | a normalized path holds no `//` |
| Paths.CollapseKeepsUnslashed | src/workspace/mod.rs:1207-1216 | collapsing removes only `/` characters, keeping the others in order |
| Paths.TrimSlashesKeepsUnslashed | src/workspace/mod.rs:1203 | trimming `/` removes only `/` characters |
| Paths.KeepsNonSlash | src/workspace/mod.rs:1202-1219 | after the whitespace trim, normalizing keeps every non-`/` character, in order |
| Paths.AlreadyNormal | src/workspace/mod.rs:1202-1219 | a path without edge whitespace, edge `/` or `//` is left unchanged |
| Paths.NormalizeIdempotent | src/workspace/mod.rs:1202-1219 | normalizing twice is normalizing once, unless the first pass leaves whitespace at an end |
| Paths.NormalizeNotIdempotent | src/workspace/mod.rs:1203 | "/ a" normalizes to " a", which normalizes to "a": whitespace is trimmed before slashes |
| Paths.NormalizeKeepsPlainPath | src/workspace/mod.rs:1233-1237 | "foo/bar" → "foo/bar" and "README.md" → "README.md" |
| Paths.NormalizeStripsEdgeSlashes | src/workspace/mod.rs:1234 | "/foo/bar/" → "foo/bar" |
| Paths.NormalizeCollapsesSlashes | src/workspace/mod.rs:1235 | "foo//bar" → "foo/bar" |
| Paths.CollapseDoubleSlash | src/workspace/mod.rs:1235 | collapsing "foo//bar" gives "foo/bar" |
| Paths.NormalizeTrimsWhitespaceThenSlashes | src/workspace/mod.rs:1236 | "  /foo/  " → "foo" |
| Paths.NormalizeStripsTrailingSlash | src/workspace/mod.rs:1242 | `normalize_directory("foo/bar/")` is "foo/bar": normalizing "foo/bar/" gives "foo/bar", and `Paths.NormalizeDirectory` adds nothing more |
| Paths.NormalizeRootIsEmpty | src/workspace/mod.rs:1244-1245 | `normalize_directory("/")` and `normalize_directory("")` are both "": both normalize to "" |
| Workspace.Read | src/workspace/mod.rs:338-342 | the document at the normalized path when present; DocumentNotFound when absent; another error when the read fails |
| Workspace.Exists | src/workspace/mod.rs:390-401 | true exactly when `read` finds the document, false exactly when it is not found, and any other error passed on |
| Workspace.WriteAt | src/workspace/mod.rs:354-365 | only the path changes and nothing is deleted; on success the path holds the content; with a healthy backend it succeeds |
| Workspace.Write | src/workspace/mod.rs:354-365 | only the normalized path changes; on success it holds the content, and `read` of the same path answers it; with a healthy backend it succeeds |
| Workspace.Joined | src/workspace/mod.rs:378-382 | the new text alone when the old is empty, else old, separator, new, each readable back |
| Workspace.AppendAt | src/workspace/mod.rs:371-388 | only the path changes; on success it holds the old content joined with the entry; with a healthy backend it succeeds |
| Workspace.Append | src/workspace/mod.rs:371-388 | only the normalized path changes; on success it holds the old content and the new joined by "\n"; with a healthy backend it succeeds |
| Workspace.MemoryDocument | src/workspace/mod.rs:448-450 | MEMORY.md's content, created empty when missing; a failed create changes nothing; an existing document is left as it is |
| Workspace.AppendMemory | src/workspace/mod.rs:495-506 | only MEMORY.md changes; on success it holds the old content and the entry joined by "\n\n"; with a healthy backend it succeeds |
| Workspace.DailyLog | src/workspace/mod.rs:461-464 | the log of the date at `daily/<date>.md`, created empty when missing, as for MEMORY.md |
| Workspace.AppendDailyLog | src/workspace/mod.rs:511-517 | the entry prefixed with "[time] " is appended with "\n" to that day's log, and nothing else changes |
| Workspace.JoinWith | src/workspace/mod.rs:561 | the join of no parts is ""; a join starts with its first part |
| Workspace.JoinEmptyIff | src/workspace/mod.rs:561 | a join of non-empty parts is empty exactly when there are no parts |
| Workspace.JoinedExtendsJoin | src/workspace/mod.rs:378-382 | appending a non-empty entry to a join gives the join with that entry added |
| Workspace.JoinEnds | src/workspace/mod.rs:561 | the join of two lists starts with the first part of the first and ends with the last part of the second |
| Workspace.JoinLength | src/workspace/mod.rs:561 | a join ends right after its last part, at that part's offset |
| Workspace.JoinPart | src/workspace/mod.rs:561 | each part of a join is found at its offset: the lengths of the earlier parts, each with one separator |
| Workspace.JoinSeparatorAt | src/workspace/mod.rs:561 | the separator comes right after each part that another part follows |
| Workspace.JoinSeparator | src/workspace/mod.rs:561 | each part but the last is followed, at its offset, by the separator |
| Workspace.JoinPrefix | src/workspace/mod.rs:561 | the join of the first parts begins the join of all of them |
| Workspace.JoinLayout | src/workspace/mod.rs:561 | a non-empty join is its parts at their offsets, each but the last followed by the separator, and nothing after the last part |
| Workspace.AppendAtHealthy | src/workspace/mod.rs:371-388 | with a healthy backend, `append` stores exactly the joined content |
| Workspace.AppendsFormJoin | src/workspace/mod.rs:371-388 | appending non-empty entries one by one to an empty document leaves them joined by the separator |
| Workspace.AppendThenRead | src/workspace/mod.rs:371-388 | after a successful `append`, `read` answers the joined content with "\n" |
| Workspace.AppendMemoryThenRead | src/workspace/mod.rs:495-506 | after a successful `append_memory`, `memory` answers the joined content with "\n\n" |
| Workspace.HeartbeatChecklist | src/workspace/mod.rs:474-480 | the stored HEARTBEAT.md when present, the built-in template when not found, an error when the read fails; never None |
| Workspace.SeedOne | src/workspace/mod.rs:1144-1161 | one round changes only its normalized path, never overwrites a present document, and counts only a full write of the seed |
| Workspace.SeedOneAt | src/workspace/mod.rs:1146-1160 | one round by backend outcome: skip; a failed create or update and a failed re-index are not counted; a failed update leaves the new document empty |
| Workspace.Keyed | src/workspace/mod.rs:1145 | each seed's path is normalized, and the order and the contents are kept |
| Workspace.Seeded | src/workspace/mod.rs:1143-1166 | the count after `n` seeds is at most `n` |
| Workspace.SeedAtHealthy | src/workspace/mod.rs:1146-1160 | with a healthy backend, a round creates a missing document with its seed and counts it; a present one is skipped |
| Workspace.SeededKeeps | src/workspace/mod.rs:1146 | seeding never changes or removes an existing document |
| Workspace.SeededAddsSeeds | src/workspace/mod.rs:1144-1161 | seeding adds no path other than seed paths |
| Workspace.SeededHealthyCreatesAll | src/workspace/mod.rs:1144-1161 | with a healthy backend, every seed path exists afterwards |
| Workspace.SeededCountsCreated | src/workspace/mod.rs:1156-1166 | with a healthy backend, the count equals the number of documents created |
| Workspace.SeedingPresentIsNoop | src/workspace/mod.rs:1146-1154 | when every seed path exists, seeding changes nothing and counts 0, whatever the backend does |
| Workspace.SeedTwice | src/workspace/mod.rs:1144-1166 | with a healthy backend, seeding a second time changes nothing and counts 0 |
| Workspace.SeedUpdateFaultLeavesEmpty | src/workspace/mod.rs:354-365 | a failed update after the create leaves the new document empty and uncounted |
| Workspace.SeedingKeepsHeartbeat | src/workspace/mod.rs:1141-1161 | seeding leaves HEARTBEAT.md either as it was or holding the built-in template |
| Workspace.SeedingKeepsHeartbeatChecklist | src/workspace/mod.rs:474-480 | `heartbeat_checklist` answers the same before and after seeding |
| Workspace.SeedEachStep | src/workspace/mod.rs:1144-1161 | one more round after `i` seeds gives the state after `i + 1` |
| Workspace.SeedRound | src/workspace/mod.rs:1146-1160 | the round's `match` and `write` give `SeedAt` at the normalized path |
| Workspace.SeedNext | src/workspace/mod.rs:1144-1161 | one loop turn takes the state after `i` seeds to the state after `i + 1` |
| Workspace.SeedEach | src/workspace/mod.rs:1143-1166 | the loop gives the store and count of `Seeded` over every seed |
| Workspace.SeedIfEmpty | src/workspace/mod.rs:653-1167 | `seed_if_empty` gives the store and count of `Seeded` over the ten seed files |
| Workspace.Section | src/workspace/mod.rs:540 | a section is the header, a blank line and the content, each readable back |
| Workspace.IdentitySections | src/workspace/mod.rs:536-542 | at most one section per identity file (the exact sections are in `Workspace.IdentitySectionsExactly`) |
| Workspace.IdentitySection | src/workspace/mod.rs:537-541 | one file gives the section of its header and content exactly when it is in the store, its read does not fail and it is not empty, and otherwise none |
| Workspace.DailySections | src/workspace/mod.rs:548-559 | at most one section per daily log (the exact sections are in `Workspace.DailySectionsExactly`) |
| Workspace.IdentityPart | src/workspace/mod.rs:537-541 | one turn of the identity loop adds the `i`-th file's section, if any |
| Workspace.LoadIdentity | src/workspace/mod.rs:536-542 | the identity loop gives `IdentitySections` |
| Workspace.LoadDailyLogs | src/workspace/mod.rs:548-559 | the daily loop gives the store and sections of `DailySections` |
| Workspace.SystemPrompt | src/workspace/mod.rs:525-562 | `system_prompt` gives the prompt and store of `Prompt` |
| Workspace.IdentitySectionsNonEmpty | src/workspace/mod.rs:537-540 | every identity section is non-empty |
| Workspace.DailySectionsNonEmpty | src/workspace/mod.rs:549-557 | every daily section is non-empty |
| Workspace.Prompt | src/workspace/mod.rs:525-562 | the prompt starts with the first identity section and ends with the last daily section, when there are any (the whole layout is in `Workspace.PromptLayout`) |
| Workspace.PromptEmptyIff | src/workspace/mod.rs:525-562 | the prompt is empty exactly when no identity file and no daily log has content |
| Workspace.IdentitySectionsAll | src/workspace/mod.rs:528-542 | when every identity file has content, each gives its own section, in the order of the files |
| Workspace.DailySectionsKeep | src/workspace/mod.rs:548-559 | loading the daily logs keeps every document as it was |
| Workspace.DailySectionsCreateLogs | src/workspace/mod.rs:461-464 | loading the daily logs adds only missing logs, and adds them empty |
| Workspace.PromptOnlyCreatesLogs | src/workspace/mod.rs:525-562 | `system_prompt` changes no document and creates at most today's and yesterday's logs, empty |
| Workspace.NothingToReadOnEmptyStore | src/workspace/mod.rs:536-542 | an empty store gives no identity sections |
| Workspace.FreshPromptEmpty | src/workspace/mod.rs:525-562 | on an empty store the prompt is "" and only the two daily logs now exist |
| Workspace.BothDaysShown | src/workspace/mod.rs:545-559 | with both logs non-empty, today's section comes before yesterday's, each under its own header |
| Workspace.NoYesterdayRepeatsToday | src/workspace/mod.rs:546 | without a previous day, today's log is shown twice, both times as today's |
| Workspace.DailySection | src/workspace/mod.rs:549-557 | a date's log gives at most one section, and one exactly when the log exists, can be fetched and is not empty |
| Workspace.DailySectionsStep | src/workspace/mod.rs:548-559 | each further log adds the section it gives in the store the prompt started from; logs created empty by earlier rounds add none |
| Workspace.SelectedInOrder | src/workspace/mod.rs:536-559 | the selected file or date indices are in range, flagged, and strictly increasing, as the loops visit them in order |
| Workspace.SelectedComplete | src/workspace/mod.rs:536-559 | every flagged index is selected |
| Workspace.IdentitySectionsSelected | src/workspace/mod.rs:536-542 | the `j`-th identity section is the section of the `j`-th selected file |
| Workspace.IdentitySectionsExactly | src/workspace/mod.rs:536-542 | the identity sections are, in file order, one for each file that is in the store, readable and not empty, and no others: each is built from its file's header and content |
| Workspace.DailySectionsSelected | src/workspace/mod.rs:548-559 | the `j`-th daily section is the section of the `j`-th selected date |
| Workspace.DailySectionsExactly | src/workspace/mod.rs:548-559 | the daily sections are, in date order, one for each log that exists, can be fetched and is not empty in the starting store, and no others: each under today's or yesterday's header with the log's content |
| Workspace.PromptDailySections | src/workspace/mod.rs:545-559 | the prompt's daily sections are today's log's, then the previous day's |
| Workspace.PromptJoins | src/workspace/mod.rs:525-562 | the prompt is the join of the identity sections, then today's section, then the previous day's |
| Workspace.PromptLayout | src/workspace/mod.rs:525-562 | the prompt is "" without sections; otherwise each section is at its offset, each but the last is followed by `\n\n---\n\n`, and nothing follows the last |
| WorkspaceExamples.SeedFilePaths | src/workspace/mod.rs:656-1142 | `seed_if_empty` tries exactly the ten paths README, MEMORY, IDENTITY, SOUL, AGENTS, USER, TOOLS, BOOT, BOOTSTRAP and HEARTBEAT |
| WorkspaceExamples.FreshSeedCreatesAll | src/workspace/mod.rs:648-652 | on an empty healthy workspace, all ten files are created and the count is 10 |
| WorkspaceExamples.SecondBootSeedsNothing | src/workspace/mod.rs:1146-1154 | a second `seed_if_empty` on a healthy backend answers 0 and changes nothing |
| WorkspaceExamples.SeedIfEmptyKeepsHeartbeat | src/workspace/mod.rs:474-480 | `seed_if_empty` does not change what `heartbeat_checklist` answers |
| WorkspaceExamples.SystemPromptEmptyIff | src/workspace/mod.rs:525-562 | the workspace's own `system_prompt` is empty exactly when none of its six sections has content |

## Left out

- ByteStrings.Lower: only ASCII letters are lowered. Unicode `to_lowercase` can change non-ASCII letters and their byte lengths. Every pattern, phrase and test text of the core is ASCII.
- ByteStrings.Ascii: maps a literal's characters to bytes. It is meant only for the ASCII literals of the core; characters above 255 become 0.
- The storage backend is an abstract map. Not modelled:
  - the `WorkspaceStorage` dispatch, PostgreSQL and libSQL, and `async`;
  - the user and agent ids;
  - `tracing` output.
- A backend failure is modelled only as a named path in `Faults`. Its error text is not modelled.
- Embeddings, chunking and `reindex_document` are out: they need an embedding provider, floating-point vectors and a chunker. A re-index is a step that can fail per path.
- `backfill_embeddings`, `search` and `search_with_config` are out for the same reason.
- `delete`, `list` and `list_all` are out. They are thin backend queries with no logic of their own.
- The workspace constructors (`Workspace::new`, `new_with_db`, `with_agent`, `with_embeddings`) and the `user_id` and `agent_id` accessors are out, as they only fill in or read fields.
- Workspace.IdentitySections: its own contract only bounds the number of sections. Which sections appear, and in what order, is stated by `Workspace.IdentitySectionsExactly`.
- Workspace.DailySections: its own contract only bounds the number of sections. Which sections appear, and in what order, is stated by `Workspace.DailySectionsExactly`, and for the two prompt dates by `Workspace.PromptDailySections`.
- Workspace.Prompt: its own contract gives only the start and the end of the text. The layout of the sections and separators is stated by `Workspace.PromptLayout`.
- Workspace.WriteAt: returns the written content. The source returns the document re-fetched by id, and that last fetch could fail; this is not modelled.
- Clock reads are out: `Utc::now`, `today_log`, and the date and time formatting of `append_daily_log` and `system_prompt`. Dates are already-formatted parameters. `pred_opt()` is an `Option` parameter: `None` means there is no previous day.
- The template seed texts (`README_SEED`, `HEARTBEAT_SEED` and so on) are opaque constants. Their contents are not modelled.
- `src/workspace/document.rs` is not part of this model. The `paths::*` names are taken from the workspace's own comments and seed list.
- In `execute_command` these are out, because they are operating-system I/O:
  - process spawning and the `tokio::time::timeout` wait (the host function gives their combined outcome);
  - pipe reading with its single bounded read, `String::from_utf8_lossy`, `kill` and `std::env::current_dir` (the host's `currentDir`);
  - the elapsed time in the result.
- `ShellTool::execute`: `serde_json` parameter parsing becomes `Option` parameters, and the result's JSON object becomes a datatype.
- The `Tool` trait metadata is out: `name`, `description`, `parameters_schema`, `requires_approval` and `requires_sanitization`.
- The iteration order of `BLOCKED_COMMANDS` (a `HashSet`) does not matter: every entry gives the same reason.
- The negative intent tests (src/util.rs:285-327 and 343-348) are not checked sentence by sentence. They are covered by the if-and-only-if of `Util.MentionsToolIntent` and by `Util.WindowHitWithin80`.
- Shell.TruncateOutput: the corrected marker counts the bytes actually left out between the moved cuts. At a character boundary this is `len - 65536`, the source's number, as `Shell.TruncateOutputAgrees` shows.

## Findings

| source | as written | input that shows it | evidently intended | confidence | as-written member | corrected member |
|---|---|---|---|---|---|---|
| src/tools/builtin/shell.rs:36 | the entry `chmod -R 777 /` has a capital `R`, but it is compared against the lowered command | `chmod -R 777 /` passes `is_blocked` even when dangerous commands are refused | block `chmod -R 777 /` by writing the entry in lower case | not executed | ShellExamples.ChmodRecursiveNotBlocked | Shell.BlockReason |
| src/util.rs:75-76 | the window end `min(start + 80, len)` is used as a slice index without checking for a char boundary | "I'll use", 79 `x` and then `é`: the end falls between the two bytes of `é`, and the slice panics | move the end back to a char boundary, as `floor_char_boundary` does | not executed | Util.IntentWindowAsWrittenPanics | Util.IntentWindow |
| src/tools/builtin/shell.rs:294-296 | output longer than 64 KiB is cut at fixed byte offsets `half` and `len - half` | a 65537-byte output with `é` across byte 32768 panics the slice | cut at char boundaries, keeping at most 32 KiB at each end | not executed | Shell.TruncateOutputAsWrittenPanics | Shell.TruncateOutput |
| src/tools/builtin/shell.rs:306 | `&s[..100]` cuts the error preview at a fixed byte offset | a 101-byte command whose last character `é` spans bytes 99-100 panics the slice | cut at the char boundary at or before byte 100 | not executed | Shell.TruncateForErrorAsWrittenPanics | Shell.TruncateForError |

`Shell.BlockReason`, the corrected blocked list, is what `Shell.IsBlocked` and `Shell.ExecuteCommand` use. `ShellExamples.ChmodRecursiveNotBlocked` proves that it blocks the command. `ShellExamples.CorrectedBlocksMore` proves that it blocks everything the list as written blocks.

The corrected window, `Util.IntentWindow`, is what `Util.MentionsToolIntent` uses. Its contract states that it ends at the largest char boundary at or below `min(start + 80, len)`. `Util.IntentWindowAgrees` proves that it equals the source's window wherever the source does not panic.

`Shell.TruncateOutputShape` and `Shell.TruncateOutputAgrees` state the corrected output truncation. The contract of `Shell.TruncateForError` states the corrected error preview: the cut is the largest char boundary at or before byte 100.
