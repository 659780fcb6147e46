/**
 * Model of src/tools/builtin/shell.rs: the blocked-command check, the output and error
 * truncations, and the decisions `execute_command` takes around the process it runs
 * (working directory, timeout, how the two output streams are combined, what counts as success).
 * The process itself is the `Host` parameter: what running a command line for a given time
 * limit produces.
 */
module Shell {
  import opened Wrappers
  import opened ByteStrings
  import Util

  // ---------------------------------------------------------------------------
  // Constants

  /** Output longer than this is cut in the middle (64 KiB). */
  const MAX_OUTPUT_SIZE: nat := 65536
  /** What is kept from each end of a cut output. */
  const HALF_OUTPUT: nat := 32768
  /** How much of a rejected command is quoted in the error. */
  const ERROR_PREVIEW: nat := 100

  /** A `std::time::Duration`, in nanoseconds. */
  type Duration = nat

  function FromSecs(secs: nat): Duration {
    secs * 1_000_000_000
  }

  const DEFAULT_TIMEOUT: Duration := FromSecs(120)

  /** `BLOCKED_COMMANDS` exactly as the source lists them. */
  const BLOCKED_COMMANDS_AS_WRITTEN: seq<Bytes> := [
    Ascii("rm -rf /"), Ascii("rm -rf /*"), Ascii(":(){ :|:& };:"), Ascii("dd if=/dev/zero"),
    Ascii("mkfs"), Ascii("chmod -R 777 /"), Ascii("> /dev/sda"), Ascii("curl | sh"),
    Ascii("wget | sh"), Ascii("curl | bash"), Ascii("wget | bash")
  ]

  /** The same patterns in lower case, the form a lowered command can contain. */
  const BLOCKED_COMMANDS: seq<Bytes> := [
    Ascii("rm -rf /"), Ascii("rm -rf /*"), Ascii(":(){ :|:& };:"), Ascii("dd if=/dev/zero"),
    Ascii("mkfs"), Ascii("chmod -r 777 /"), Ascii("> /dev/sda"), Ascii("curl | sh"),
    Ascii("wget | sh"), Ascii("curl | bash"), Ascii("wget | bash")
  ]

  const DANGEROUS_PATTERNS: seq<Bytes> := [
    Ascii("sudo "), Ascii("doas "), Ascii(" | sh"), Ascii(" | bash"), Ascii(" | zsh"),
    Ascii("eval "), Ascii("$(curl"), Ascii("$(wget"), Ascii("/etc/passwd"), Ascii("/etc/shadow"),
    Ascii("~/.ssh"), Ascii(".bash_history"), Ascii("id_rsa")
  ]

  const BLOCKED_REASON: Bytes := Ascii("Command contains blocked pattern")
  const DANGEROUS_REASON: Bytes := Ascii("Command contains potentially dangerous pattern")

  // ---------------------------------------------------------------------------
  // The tool's configuration

  datatype ShellTool = ShellTool(workingDir: Option<Bytes>, timeout: Duration, allowDangerous: bool)

  /** `ShellTool::new`. */
  function NewShellTool(): (t: ShellTool)
    ensures t.workingDir.None? && t.timeout == 120 * 1_000_000_000 && !t.allowDangerous
  {
    ShellTool(None, DEFAULT_TIMEOUT, false)
  }

  /** `ShellTool::with_working_dir`. */
  function WithWorkingDir(tool: ShellTool, dir: Bytes): (t: ShellTool)
    ensures t.workingDir == Some(dir)
    ensures t.timeout == tool.timeout && t.allowDangerous == tool.allowDangerous
  {
    tool.(workingDir := Some(dir))
  }

  /** `ShellTool::with_timeout`. */
  function WithTimeout(tool: ShellTool, timeout: Duration): (t: ShellTool)
    ensures t.timeout == timeout
    ensures t.workingDir == tool.workingDir && t.allowDangerous == tool.allowDangerous
  {
    tool.(timeout := timeout)
  }

  // ---------------------------------------------------------------------------
  // is_blocked

  /** The verdict of `is_blocked` against a given list of always-blocked patterns: the
      lowered command is checked against `blocked` first, then, unless dangerous commands
      are allowed, against the dangerous patterns. */
  function BlockReasonWith(blocked: seq<Bytes>, allowDangerous: bool, cmd: Bytes): (r: Option<Bytes>)
    ensures (exists k :: 0 <= k < |blocked| && Contains(Lower(cmd), blocked[k])) ==>
              r == Some(BLOCKED_REASON)
    ensures (forall k :: 0 <= k < |blocked| ==> !Contains(Lower(cmd), blocked[k])) ==>
              (r == Some(DANGEROUS_REASON) <==>
                 !allowDangerous && exists k :: 0 <= k < |DANGEROUS_PATTERNS| && Contains(Lower(cmd), DANGEROUS_PATTERNS[k]))
    ensures r.None? <==>
              (forall k :: 0 <= k < |blocked| ==> !Contains(Lower(cmd), blocked[k])) &&
              (allowDangerous || forall k :: 0 <= k < |DANGEROUS_PATTERNS| ==> !Contains(Lower(cmd), DANGEROUS_PATTERNS[k]))
    ensures allowDangerous ==> r != Some(DANGEROUS_REASON)
  {
    var normalized := Lower(cmd);
    if AnyContained(normalized, blocked) then Some(BLOCKED_REASON)
    else if !allowDangerous && AnyContained(normalized, DANGEROUS_PATTERNS) then Some(DANGEROUS_REASON)
    else None
  }

  /** `is_blocked` as the source has it. */
  function BlockReasonAsWritten(allowDangerous: bool, cmd: Bytes): (r: Option<Bytes>)
    ensures r == Some(BLOCKED_REASON) <==>
              exists k :: 0 <= k < |BLOCKED_COMMANDS_AS_WRITTEN| && k != CHMOD_ENTRY && Contains(Lower(cmd), BLOCKED_COMMANDS_AS_WRITTEN[k])
    ensures r == Some(DANGEROUS_REASON) <==>
              && (forall k :: 0 <= k < |BLOCKED_COMMANDS_AS_WRITTEN| ==> !Contains(Lower(cmd), BLOCKED_COMMANDS_AS_WRITTEN[k]))
              && !allowDangerous
              && exists k :: 0 <= k < |DANGEROUS_PATTERNS| && Contains(Lower(cmd), DANGEROUS_PATTERNS[k])
    ensures r.None? || r == Some(BLOCKED_REASON) || r == Some(DANGEROUS_REASON)
  {
    ReasonsDiffer();
    ChmodEntryNeverMatches(cmd);
    BlockReasonWith(BLOCKED_COMMANDS_AS_WRITTEN, allowDangerous, cmd)
  }

  /** `is_blocked` with the always-blocked patterns compared in lower case. */
  function BlockReason(allowDangerous: bool, cmd: Bytes): (r: Option<Bytes>)
    ensures r == Some(BLOCKED_REASON) <==>
              exists k :: 0 <= k < |BLOCKED_COMMANDS| && Contains(Lower(cmd), BLOCKED_COMMANDS[k])
    ensures r == Some(DANGEROUS_REASON) <==>
              && (forall k :: 0 <= k < |BLOCKED_COMMANDS| ==> !Contains(Lower(cmd), BLOCKED_COMMANDS[k]))
              && !allowDangerous
              && exists k :: 0 <= k < |DANGEROUS_PATTERNS| && Contains(Lower(cmd), DANGEROUS_PATTERNS[k])
    ensures r.None? || r == Some(BLOCKED_REASON) || r == Some(DANGEROUS_REASON)
  {
    ReasonsDiffer();
    BlockReasonWith(BLOCKED_COMMANDS, allowDangerous, cmd)
  }

  lemma ReasonsDiffer()
    ensures BLOCKED_REASON != DANGEROUS_REASON
  {
    assert |BLOCKED_REASON| != |DANGEROUS_REASON|;
  }

  /** The index of `chmod -R 777 /` in the blocked list. */
  const CHMOD_ENTRY: nat := 5

  /** `chmod -R 777 /` is listed with an upper-case R, but the command is lowered before the
      comparison, so that entry never matches anything. */
  lemma ChmodEntryNeverMatches(cmd: Bytes)
    ensures !Contains(Lower(cmd), BLOCKED_COMMANDS_AS_WRITTEN[CHMOD_ENTRY])
  {
    assert BLOCKED_COMMANDS_AS_WRITTEN[CHMOD_ENTRY] == Ascii("chmod -R 777 /");
    UpperPatternNeverInLower(cmd, BLOCKED_COMMANDS_AS_WRITTEN[CHMOD_ENTRY], 7);
  }

  /** One of the two loops of `is_blocked`: does the lowered command contain any pattern? */
  method ContainsAny(normalized: Bytes, patterns: seq<Bytes>) returns (found: bool)
    ensures found == AnyContained(normalized, patterns)
  {
    for k := 0 to |patterns|
      invariant forall k' :: 0 <= k' < k ==> !Contains(normalized, patterns[k'])
    {
      if Contains(normalized, patterns[k]) {
        return true;
      }
    }
    return false;
  }

  /** `is_blocked`: the always-blocked patterns first, then, unless dangerous commands are
      allowed, the dangerous ones; the first list with a match gives the reason. */
  method IsBlocked(tool: ShellTool, cmd: Bytes) returns (r: Option<Bytes>)
    ensures r == BlockReason(tool.allowDangerous, cmd)
  {
    var normalized := Lower(cmd);
    var blocked := ContainsAny(normalized, BLOCKED_COMMANDS);
    if blocked {
      return Some(BLOCKED_REASON);
    }
    if !tool.allowDangerous {
      var dangerous := ContainsAny(normalized, DANGEROUS_PATTERNS);
      if dangerous {
        return Some(DANGEROUS_REASON);
      }
    }
    return None;
  }

  // ---------------------------------------------------------------------------
  // truncate_output and truncate_for_error

  /** The text put where the middle of a long output was cut out. */
  function TruncationMarker(dropped: nat): (r: Bytes)
    ensures |r| == |MARKER_HEAD| + |Decimal(dropped)| + |MARKER_TAIL|
    ensures r[..|MARKER_HEAD|] == MARKER_HEAD && r[|r| - |MARKER_TAIL|..] == MARKER_TAIL
    ensures DecimalValue(r[|MARKER_HEAD|..|r| - |MARKER_TAIL|]) == dropped
  {
    var r := MARKER_HEAD + Decimal(dropped) + MARKER_TAIL;
    DecimalRoundTrip(dropped);
    assert r[|MARKER_HEAD|..|r| - |MARKER_TAIL|] == Decimal(dropped);
    r
  }

  const MARKER_HEAD: Bytes := Ascii("\n\n... [truncated ")
  const MARKER_TAIL: Bytes := Ascii(" bytes] ...\n\n")

  /** The output with the bytes between `h` and `t` replaced by the marker that counts them:
      the first `h` bytes, the marker, and the bytes from `t` on. */
  function Elided(s: Bytes, h: nat, t: nat): (r: Bytes)
    requires h <= t <= |s|
    ensures |r| == h + |TruncationMarker(t - h)| + (|s| - t)
    ensures r[..h] == s[..h]
    ensures r[h..h + |TruncationMarker(t - h)|] == TruncationMarker(t - h)
    ensures r[h + |TruncationMarker(t - h)|..] == s[t..]
  {
    s[..h] + TruncationMarker(t - h) + s[t..]
  }

  /** `truncate_output` as written: None where `&s[..half]` or `&s[len - half..]` panics
      because the cut falls inside a character. */
  function TruncateOutputAsWritten(s: Bytes): (r: Option<Bytes>)
    ensures |s| <= MAX_OUTPUT_SIZE ==> r == Some(s)
    ensures |s| > MAX_OUTPUT_SIZE && r.Some? ==> r.value == Elided(s, HALF_OUTPUT, |s| - HALF_OUTPUT)
    ensures |s| > MAX_OUTPUT_SIZE ==>
              (r.Some? <==> IsCharBoundary(s, HALF_OUTPUT) && IsCharBoundary(s, |s| - HALF_OUTPUT))
  {
    if |s| <= MAX_OUTPUT_SIZE then Some(s)
    else
      match (Slice(s, 0, HALF_OUTPUT), Slice(s, |s| - HALF_OUTPUT, |s|))
      case (Some(_), Some(_)) => Some(Elided(s, HALF_OUTPUT, |s| - HALF_OUTPUT))
      case _ => None
  }

  /** `truncate_output` with both cuts moved outwards onto character boundaries, so that
      at most 32 KiB is kept from each end and the marker counts the bytes actually left out. */
  function TruncateOutput(s: Bytes): (r: Bytes)
    ensures |s| <= MAX_OUTPUT_SIZE ==> r == s
  {
    if |s| <= MAX_OUTPUT_SIZE then s
    else Elided(s, Util.FloorBoundary(s, HALF_OUTPUT), Util.CeilBoundary(s, |s| - HALF_OUTPUT))
  }

  /** A long output keeps a prefix and a suffix of at most 32 KiB each, cut at character
      boundaries as close to 32 KiB as possible, with the marker counting the bytes between
      (the number can be read back, see `DecimalRoundTrip`). */
  lemma TruncateOutputShape(s: Bytes)
    requires |s| > MAX_OUTPUT_SIZE
    ensures var h := Util.FloorBoundary(s, HALF_OUTPUT);
            var t := Util.CeilBoundary(s, |s| - HALF_OUTPUT);
            && h <= HALF_OUTPUT && |s| - HALF_OUTPUT <= t <= |s|
            && IsCharBoundary(s, h) && IsCharBoundary(s, t)
            && (forall j :: h < j <= HALF_OUTPUT ==> !IsCharBoundary(s, j))
            && (forall j :: |s| - HALF_OUTPUT <= j < t ==> !IsCharBoundary(s, j))
            && TruncateOutput(s) == Elided(s, h, t)
  {
    HeadCut(s);
  }

  lemma HeadCut(s: Bytes)
    requires |s| > MAX_OUTPUT_SIZE
    ensures var h := Util.FloorBoundary(s, HALF_OUTPUT);
            && h <= HALF_OUTPUT && IsCharBoundary(s, h)
            && (forall j :: h < j <= HALF_OUTPUT ==> !IsCharBoundary(s, j))
  {
    assert Util.IsFloorBoundary(s, HALF_OUTPUT, Util.FloorBoundary(s, HALF_OUTPUT));
  }

  /** Wherever the source does not panic, the corrected truncation gives the same text. */
  lemma TruncateOutputAgrees(s: Bytes)
    requires TruncateOutputAsWritten(s).Some?
    ensures TruncateOutput(s) == TruncateOutputAsWritten(s).value
  {
  }

  /** A 65537-byte output with a two-byte character across byte 32768 makes the source panic. */
  lemma TruncateOutputAsWrittenPanics()
    ensures var s: Bytes := seq(HALF_OUTPUT - 1, _ => 'a' as int) + [0xC3, 0xA9] + seq(HALF_OUTPUT, _ => 'a' as int);
            |s| == MAX_OUTPUT_SIZE + 1 && TruncateOutputAsWritten(s).None?
  {
    var s: Bytes := seq(HALF_OUTPUT - 1, _ => 'a' as int) + [0xC3, 0xA9] + seq(HALF_OUTPUT, _ => 'a' as int);
    assert s[HALF_OUTPUT] == 0xA9;
  }

  const ELLIPSIS: Bytes := Ascii("...")

  /** `truncate_for_error` as written: None where `&s[..100]` panics inside a character. */
  function TruncateForErrorAsWritten(s: Bytes): (r: Option<Bytes>)
    ensures |s| <= ERROR_PREVIEW ==> r == Some(s)
    ensures |s| > ERROR_PREVIEW && r.Some? ==> r.value == s[..ERROR_PREVIEW] + ELLIPSIS && |r.value| == 103
    ensures |s| > ERROR_PREVIEW ==> (r.Some? <==> IsCharBoundary(s, ERROR_PREVIEW))
  {
    if |s| <= ERROR_PREVIEW then Some(s)
    else
      match Slice(s, 0, ERROR_PREVIEW)
      case Some(head) => Some(head + ELLIPSIS)
      case None => None
  }

  /** `truncate_for_error` with the cut moved back to a character boundary. */
  function TruncateForError(s: Bytes): (r: Bytes)
    ensures |s| <= ERROR_PREVIEW ==> r == s
    ensures |s| > ERROR_PREVIEW ==>
              && |r| >= |ELLIPSIS|
              && var h := |r| - |ELLIPSIS|;
                 && h <= ERROR_PREVIEW && IsCharBoundary(s, h) && r == s[..h] + ELLIPSIS
                 && forall j :: h < j <= ERROR_PREVIEW ==> !IsCharBoundary(s, j)
    ensures |r| <= ERROR_PREVIEW + |ELLIPSIS|
    ensures TruncateForErrorAsWritten(s).Some? ==> r == TruncateForErrorAsWritten(s).value
  {
    if |s| <= ERROR_PREVIEW then s
    else
      var h := Util.FloorBoundary(s, ERROR_PREVIEW);
      assert Util.IsFloorBoundary(s, ERROR_PREVIEW, h);
      s[..h] + ELLIPSIS
  }

  /** A 101-byte command whose last character straddles byte 100 makes the source panic. */
  lemma TruncateForErrorAsWrittenPanics()
    ensures var s: Bytes := seq(ERROR_PREVIEW - 1, _ => 'a' as int) + [0xC3, 0xA9];
            TruncateForErrorAsWritten(s).None?
  {
    var s: Bytes := seq(ERROR_PREVIEW - 1, _ => 'a' as int) + [0xC3, 0xA9];
    assert s[ERROR_PREVIEW] == 0xA9;
  }

  // ---------------------------------------------------------------------------
  // execute_command

  datatype ToolError =
    | NotAuthorized(message: Bytes)
    | ExecutionFailed(message: Bytes)
    | Timeout(after: Duration)
    | InvalidParameters(message: Bytes)

  datatype Platform = Unix | Windows

  /** What `Command` is built with: the program, its arguments and the working directory. */
  datatype CommandLine = CommandLine(program: Bytes, args: seq<Bytes>, cwd: Bytes)

  /** What spawning, waiting for and reading a process gave. */
  datatype RunOutcome =
    | SpawnFailed(reason: Bytes)
    | WaitFailed(reason: Bytes)
    | TimedOut
    | Exited(stdout: Bytes, stderr: Bytes, code: Option<int>)

  /** The operating system: the platform, `std::env::current_dir`, and what running a command
      line under a time limit produces. */
  datatype Host = Host(platform: Platform, currentDir: Option<Bytes>, run: (CommandLine, Duration) -> RunOutcome)

  /** The working directory: the call's, else the tool's, else the process's, else ".". */
  function EffectiveCwd(tool: ShellTool, workdir: Option<Bytes>, host: Host): (cwd: Bytes)
    ensures workdir.Some? ==> cwd == workdir.value
    ensures workdir.None? && tool.workingDir.Some? ==> cwd == tool.workingDir.value
    ensures workdir.None? && tool.workingDir.None? ==> cwd == host.currentDir.GetOr(Ascii("."))
  {
    match workdir
    case Some(dir) => dir
    case None =>
      match tool.workingDir
      case Some(dir) => dir
      case None => host.currentDir.GetOr(Ascii("."))
  }

  /** The time limit: the call's, in seconds, else the tool's. */
  function EffectiveTimeout(tool: ShellTool, timeoutSecs: Option<nat>): (d: Duration)
    ensures timeoutSecs.Some? ==> d == timeoutSecs.value * 1_000_000_000
    ensures timeoutSecs.None? ==> d == tool.timeout
  {
    match timeoutSecs
    case Some(secs) => FromSecs(secs)
    case None => tool.timeout
  }

  /** `sh -c cmd`, or `cmd /C cmd` on Windows. */
  function BuildCommandLine(platform: Platform, cmd: Bytes, cwd: Bytes): (line: CommandLine)
    ensures line.cwd == cwd && |line.args| == 2 && line.args[1] == cmd
    ensures platform == Unix ==> line.program == Ascii("sh") && line.args[0] == Ascii("-c")
    ensures platform == Windows ==> line.program == Ascii("cmd") && line.args[0] == Ascii("/C")
  {
    match platform
    case Windows => CommandLine(Ascii("cmd"), [Ascii("/C"), cmd], cwd)
    case Unix => CommandLine(Ascii("sh"), [Ascii("-c"), cmd], cwd)
  }

  const STDERR_SEPARATOR: Bytes := Ascii("\n\n--- stderr ---\n")

  /** The combined output: either stream alone when the other is empty, else both with a
      separator; both streams can be read back from the result. */
  function CombineOutput(stdout: Bytes, stderr: Bytes): (r: Bytes)
    ensures stderr == [] ==> r == stdout
    ensures stderr != [] && stdout == [] ==> r == stderr
    ensures stderr != [] && stdout != [] ==>
              && |r| == |stdout| + |STDERR_SEPARATOR| + |stderr|
              && r[..|stdout|] == stdout
              && r[|stdout|..|stdout| + |STDERR_SEPARATOR|] == STDERR_SEPARATOR
              && r[|r| - |stderr|..] == stderr
  {
    if stderr == [] then stdout
    else if stdout == [] then stderr
    else stdout + STDERR_SEPARATOR + stderr
  }

  const SPAWN_FAILED: Bytes := Ascii("Failed to spawn command: ")
  const EXECUTION_FAILED: Bytes := Ascii("Command execution failed: ")

  /** `execute_command`: refuse a blocked command, otherwise run it in the chosen directory
      under the chosen time limit and return its combined, truncated output and exit code
      (-1 when the process has none, e.g. killed by a signal). */
  function ExecuteCommand(tool: ShellTool, cmd: Bytes, workdir: Option<Bytes>, timeoutSecs: Option<nat>, host: Host)
    : (r: Result<(Bytes, int), ToolError>)
    ensures BlockReason(tool.allowDangerous, cmd).Some? ==>
              r == Err(NotAuthorized(BlockReason(tool.allowDangerous, cmd).value + Ascii(": ") + TruncateForError(cmd)))
    ensures r.Ok? ==>
              && BlockReason(tool.allowDangerous, cmd).None?
              && host.run(BuildCommandLine(host.platform, cmd, EffectiveCwd(tool, workdir, host)), EffectiveTimeout(tool, timeoutSecs)).Exited?
    ensures (r.Err? && r.error.NotAuthorized?) <==> BlockReason(tool.allowDangerous, cmd).Some?
    ensures r.Err? && r.error.Timeout? ==> r.error.after == EffectiveTimeout(tool, timeoutSecs)
    ensures r.Err? ==> !r.error.InvalidParameters?
  {
    match BlockReason(tool.allowDangerous, cmd)
    case Some(reason) => Err(NotAuthorized(reason + Ascii(": ") + TruncateForError(cmd)))
    case None =>
      var line := BuildCommandLine(host.platform, cmd, EffectiveCwd(tool, workdir, host));
      var limit := EffectiveTimeout(tool, timeoutSecs);
      match host.run(line, limit)
      case SpawnFailed(e) => Err(ExecutionFailed(SPAWN_FAILED + e))
      case WaitFailed(e) => Err(ExecutionFailed(EXECUTION_FAILED + e))
      case TimedOut => Err(Timeout(limit))
      case Exited(stdout, stderr, code) => Ok((TruncateOutput(CombineOutput(stdout, stderr)), code.GetOr(-1)))
  }

  /** A blocked command is refused with the reason and a preview of the command, and the
      host is never consulted: the answer is the same whatever running it would do. */
  lemma BlockedCommandNeverRuns(tool: ShellTool, cmd: Bytes, workdir: Option<Bytes>, timeoutSecs: Option<nat>, host: Host, other: Host)
    requires BlockReason(tool.allowDangerous, cmd).Some?
    ensures ExecuteCommand(tool, cmd, workdir, timeoutSecs, host)
            == Err(NotAuthorized(BlockReason(tool.allowDangerous, cmd).value + Ascii(": ") + TruncateForError(cmd)))
    ensures ExecuteCommand(tool, cmd, workdir, timeoutSecs, host) == ExecuteCommand(tool, cmd, workdir, timeoutSecs, other)
  {
  }

  /** An allowed command is run exactly once, as `sh -c cmd` (or `cmd /C cmd`) in the chosen
      directory under the chosen time limit, and every outcome of that run is reported. */
  lemma AllowedCommandRuns(tool: ShellTool, cmd: Bytes, workdir: Option<Bytes>, timeoutSecs: Option<nat>, host: Host)
    requires BlockReason(tool.allowDangerous, cmd).None?
    ensures var line := BuildCommandLine(host.platform, cmd, EffectiveCwd(tool, workdir, host));
            var limit := EffectiveTimeout(tool, timeoutSecs);
            var result := ExecuteCommand(tool, cmd, workdir, timeoutSecs, host);
            && line.cwd == EffectiveCwd(tool, workdir, host)
            && line.args[|line.args| - 1] == cmd
            && (host.run(line, limit).TimedOut? ==> result == Err(Timeout(limit)))
            && (host.run(line, limit).SpawnFailed? ==> result.Err? && result.error.ExecutionFailed?)
            && (host.run(line, limit).WaitFailed? ==> result.Err? && result.error.ExecutionFailed?)
            && (host.run(line, limit).Exited? ==>
                  var outcome := host.run(line, limit);
                  && result.Ok?
                  && result.value.0 == TruncateOutput(CombineOutput(outcome.stdout, outcome.stderr))
                  && (outcome.code.Some? ==> result.value.1 == outcome.code.value)
                  && (outcome.code.None? ==> result.value.1 == -1))
  {
  }

  /** The JSON object `execute` returns. */
  datatype ShellResult = ShellResult(output: Bytes, exitCode: int, success: bool)

  /** `execute`: a missing command is an invalid-parameters error; otherwise the result of
      `execute_command`, marked successful exactly when the exit code is 0. */
  function Execute(tool: ShellTool, command: Option<Bytes>, workdir: Option<Bytes>, timeoutSecs: Option<nat>, host: Host)
    : (r: Result<ShellResult, ToolError>)
    ensures command.None? ==> r.Err? && r.error.InvalidParameters?
    ensures r.Ok? ==> (r.value.success <==> r.value.exitCode == 0)
    ensures command.Some? && BlockReason(tool.allowDangerous, command.value).Some? ==> r.Err? && r.error.NotAuthorized?
    ensures command.Some? ==>
              var e := ExecuteCommand(tool, command.value, workdir, timeoutSecs, host);
              && (e.Err? ==> r == Err(e.error))
              && (e.Ok? ==> r.Ok? && r.value.output == e.value.0 && r.value.exitCode == e.value.1)
  {
    match command
    case None => Err(InvalidParameters(Ascii("missing 'command' parameter")))
    case Some(cmd) =>
      match ExecuteCommand(tool, cmd, workdir, timeoutSecs, host)
      case Err(e) => Err(e)
      case Ok((output, code)) => Ok(ShellResult(output, code, code == 0))
  }
}
