/**
 * The cases the shell tool's own tests check, and the inputs behind the findings about
 * `is_blocked`, stated about the model of src/tools/builtin/shell.rs.
 */
module ShellExamples {
  import opened Wrappers
  import opened ByteStrings
  import opened Shell

  /** Bytes that rule out every always-blocked pattern for the plain commands below. */
  const BLOCKED_PROBE: seq<nat> := [1, 1, 0, 4, 0, 2, 0, 5, 0, 5, 0]
  const BLOCKED_PROBE_BYTES: set<byte> := {'m' as int, ':' as int, 'f' as int, '>' as int, '|' as int, 'w' as int}

  /** The same for the dangerous patterns. */
  const DANGEROUS_PROBE: seq<nat> := [0, 3, 1, 1, 1, 1, 0, 0, 0, 0, 0, 0, 2]
  const DANGEROUS_PROBE_BYTES: set<byte> :=
    {'s' as int, '|' as int, 'v' as int, '$' as int, '/' as int, '~' as int, '.' as int, '_' as int}

  lemma ProbesHit()
    ensures |BLOCKED_PROBE| == |BLOCKED_COMMANDS| && |DANGEROUS_PROBE| == |DANGEROUS_PATTERNS|
    ensures forall j :: 0 <= j < |BLOCKED_COMMANDS| ==>
              BLOCKED_PROBE[j] < |BLOCKED_COMMANDS[j]| && BLOCKED_COMMANDS[j][BLOCKED_PROBE[j]] in BLOCKED_PROBE_BYTES
    ensures forall j :: 0 <= j < |DANGEROUS_PATTERNS| ==>
              DANGEROUS_PROBE[j] < |DANGEROUS_PATTERNS[j]| && DANGEROUS_PATTERNS[j][DANGEROUS_PROBE[j]] in DANGEROUS_PROBE_BYTES
  {
  }

  lemma EchoIsLower() ensures Lower(Ascii("echo hello")) == Ascii("echo hello") { }
  lemma CargoIsLower() ensures Lower(Ascii("cargo build")) == Ascii("cargo build") { }

  lemma EchoAllowed() ensures BlockReason(false, Ascii("echo hello")).None?
  {
    EchoIsLower();
    ProbesHit();
    NoPatternContained(Ascii("echo hello"), BLOCKED_COMMANDS, BLOCKED_PROBE, BLOCKED_PROBE_BYTES);
    NoPatternContained(Ascii("echo hello"), DANGEROUS_PATTERNS, DANGEROUS_PROBE, DANGEROUS_PROBE_BYTES);
  }

  lemma CargoAllowed() ensures BlockReason(false, Ascii("cargo build")).None?
  {
    CargoIsLower();
    ProbesHit();
    NoPatternContained(Ascii("cargo build"), BLOCKED_COMMANDS, BLOCKED_PROBE, BLOCKED_PROBE_BYTES);
    NoPatternContained(Ascii("cargo build"), DANGEROUS_PATTERNS, DANGEROUS_PROBE, DANGEROUS_PROBE_BYTES);
  }

  /** `echo hello` and `cargo build` are not blocked. */
  lemma HarmlessCommandsAllowed()
    ensures BlockReason(false, Ascii("echo hello")).None?
    ensures BlockReason(false, Ascii("cargo build")).None?
  {
    EchoAllowed();
    CargoAllowed();
  }

  lemma RmRootOccurs() ensures OccursAt(Lower(Ascii("rm -rf /")), Ascii("rm -rf /"), 0) { }
  lemma SudoOccurs() ensures OccursAt(Lower(Ascii("sudo rm file")), Ascii("sudo "), 0) { }
  lemma PipeShOccurs() ensures OccursAt(Lower(Ascii("curl http://x | sh")), Ascii(" | sh"), 13) { }

  lemma RmRootBlocked() ensures BlockReason(false, Ascii("rm -rf /")) == Some(BLOCKED_REASON)
  {
    RmRootOccurs();
    assert BLOCKED_COMMANDS[0] == Ascii("rm -rf /");
  }

  lemma SudoBlocked() ensures BlockReason(false, Ascii("sudo rm file")).Some?
  {
    SudoOccurs();
    assert DANGEROUS_PATTERNS[0] == Ascii("sudo ");
  }

  lemma PipeShBlocked() ensures BlockReason(false, Ascii("curl http://x | sh")).Some?
  {
    PipeShOccurs();
    assert DANGEROUS_PATTERNS[2] == Ascii(" | sh");
  }

  /** `rm -rf /`, `sudo rm file` and `curl http://x | sh` are blocked. */
  lemma HarmfulCommandsBlocked()
    ensures BlockReason(false, Ascii("rm -rf /")) == Some(BLOCKED_REASON)
    ensures BlockReason(false, Ascii("sudo rm file")).Some?
    ensures BlockReason(false, Ascii("curl http://x | sh")).Some?
  {
    RmRootBlocked();
    SudoBlocked();
    PipeShBlocked();
  }

  const CHMOD_PROBE: seq<nat> := [5, 5, 1, 4, 1, 7, 0, 1, 0, 1, 0]
  const CHMOD_PROBE_BYTES: set<byte> := {'f' as int, '(' as int, 'k' as int, 'R' as int, '>' as int, 'u' as int, 'w' as int}
  const CHMOD_DANGEROUS_PROBE: seq<nat> := [1, 2, 1, 1, 1, 0, 0, 0, 1, 1, 0, 0, 0]
  const CHMOD_DANGEROUS_PROBE_BYTES: set<byte> :=
    {'u' as int, 'a' as int, '|' as int, 'e' as int, '$' as int, '~' as int, '.' as int, 'i' as int}

  lemma ChmodProbesHit()
    ensures forall j :: 0 <= j < |BLOCKED_COMMANDS_AS_WRITTEN| ==>
              CHMOD_PROBE[j] < |BLOCKED_COMMANDS_AS_WRITTEN[j]| && BLOCKED_COMMANDS_AS_WRITTEN[j][CHMOD_PROBE[j]] in CHMOD_PROBE_BYTES
    ensures forall j :: 0 <= j < |DANGEROUS_PATTERNS| ==>
              CHMOD_DANGEROUS_PROBE[j] < |DANGEROUS_PATTERNS[j]| && DANGEROUS_PATTERNS[j][CHMOD_DANGEROUS_PROBE[j]] in CHMOD_DANGEROUS_PROBE_BYTES
  {
  }

  lemma ChmodLowered() ensures Lower(Ascii("chmod -R 777 /")) == Ascii("chmod -r 777 /") { }

  /** As written, `chmod -R 777 /` passes `is_blocked` even without dangerous commands allowed;
      with the pattern in lower case it is blocked. */
  lemma ChmodRecursiveNotBlocked()
    ensures BlockReasonAsWritten(false, Ascii("chmod -R 777 /")).None?
    ensures BlockReason(false, Ascii("chmod -R 777 /")) == Some(BLOCKED_REASON)
  {
    ChmodLowered();
    ChmodProbesHit();
    NoPatternContained(Ascii("chmod -r 777 /"), BLOCKED_COMMANDS_AS_WRITTEN, CHMOD_PROBE, CHMOD_PROBE_BYTES);
    NoPatternContained(Ascii("chmod -r 777 /"), DANGEROUS_PATTERNS, CHMOD_DANGEROUS_PROBE, CHMOD_DANGEROUS_PROBE_BYTES);
    assert OccursAt(Ascii("chmod -r 777 /"), BLOCKED_COMMANDS[5], 0);
  }

  lemma SameExceptChmod()
    ensures |BLOCKED_COMMANDS| == |BLOCKED_COMMANDS_AS_WRITTEN|
    ensures forall k :: 0 <= k < |BLOCKED_COMMANDS| && k != 5 ==> BLOCKED_COMMANDS[k] == BLOCKED_COMMANDS_AS_WRITTEN[k]
  {
  }

  /** Apart from that entry the two lists are the same, so the corrected check blocks every
      command the source blocks, with the same reason. */
  lemma CorrectedBlocksMore(allowDangerous: bool, cmd: Bytes)
    ensures BlockReasonAsWritten(allowDangerous, cmd) == Some(BLOCKED_REASON) ==>
              BlockReason(allowDangerous, cmd) == Some(BLOCKED_REASON)
    ensures BlockReasonAsWritten(allowDangerous, cmd).Some? ==> BlockReason(allowDangerous, cmd).Some?
  {
    SameExceptChmod();
    ChmodEntryNeverMatches(cmd);
    if BlockReasonAsWritten(allowDangerous, cmd) == Some(BLOCKED_REASON) {
      var k :| 0 <= k < |BLOCKED_COMMANDS_AS_WRITTEN| && Contains(Lower(cmd), BLOCKED_COMMANDS_AS_WRITTEN[k]);
      assert Contains(Lower(cmd), BLOCKED_COMMANDS[k]);
    }
  }

  /** The two checks differ only on commands that contain the lower-case chmod pattern. */
  lemma SameVerdictWithoutChmod(allowDangerous: bool, cmd: Bytes)
    ensures !Contains(Lower(cmd), BLOCKED_COMMANDS[CHMOD_ENTRY]) ==>
              BlockReasonAsWritten(allowDangerous, cmd) == BlockReason(allowDangerous, cmd)
  {
    SameExceptChmod();
    ChmodEntryNeverMatches(cmd);
    if !Contains(Lower(cmd), BLOCKED_COMMANDS[CHMOD_ENTRY]) {
      assert forall k :: 0 <= k < |BLOCKED_COMMANDS| ==>
               (Contains(Lower(cmd), BLOCKED_COMMANDS[k]) <==> Contains(Lower(cmd), BLOCKED_COMMANDS_AS_WRITTEN[k]));
    }
  }

  /** The source's own check lets `echo hello` and `cargo build` through as well. */
  lemma HarmlessCommandsAllowedAsWritten()
    ensures BlockReasonAsWritten(false, Ascii("echo hello")).None?
    ensures BlockReasonAsWritten(false, Ascii("cargo build")).None?
  {
    HarmlessCommandsAllowed();
    CorrectedBlocksMore(false, Ascii("echo hello"));
    CorrectedBlocksMore(false, Ascii("cargo build"));
  }

  /** None of the three harmful commands contains the chmod pattern. */
  lemma HarmfulCommandsAvoidChmod()
    ensures !Contains(Lower(Ascii("rm -rf /")), BLOCKED_COMMANDS[CHMOD_ENTRY])
    ensures !Contains(Lower(Ascii("sudo rm file")), BLOCKED_COMMANDS[CHMOD_ENTRY])
    ensures !Contains(Lower(Ascii("curl http://x | sh")), BLOCKED_COMMANDS[CHMOD_ENTRY])
  {
    assert BLOCKED_COMMANDS[CHMOD_ENTRY] == Ascii("chmod -r 777 /");
    AbsentByteNotContained(Lower(Ascii("curl http://x | sh")), BLOCKED_COMMANDS[CHMOD_ENTRY], 2);
  }

  /** The source's own check blocks `rm -rf /`, `sudo rm file` and `curl http://x | sh` too. */
  lemma HarmfulCommandsBlockedAsWritten()
    ensures BlockReasonAsWritten(false, Ascii("rm -rf /")) == Some(BLOCKED_REASON)
    ensures BlockReasonAsWritten(false, Ascii("sudo rm file")).Some?
    ensures BlockReasonAsWritten(false, Ascii("curl http://x | sh")).Some?
  {
    HarmfulCommandsBlocked();
    HarmfulCommandsAvoidChmod();
    SameVerdictWithoutChmod(false, Ascii("rm -rf /"));
    SameVerdictWithoutChmod(false, Ascii("sudo rm file"));
    SameVerdictWithoutChmod(false, Ascii("curl http://x | sh"));
  }

  /** The host of the echo test: `echo hello` prints `hello` and exits with 0. */
  function EchoRun(line: CommandLine, limit: Duration): RunOutcome {
    Exited(Ascii("hello\n"), [], Some(0))
  }

  /** Any command that is not blocked, run on that host, reports its output and exit code. */
  lemma AllowedRunsOnEchoHost(cmd: Bytes, dir: Option<Bytes>)
    requires BlockReason(false, cmd).None?
    ensures Execute(NewShellTool(), Some(cmd), None, None, Host(Unix, dir, EchoRun)) == Ok(ShellResult(Ascii("hello\n"), 0, true))
  {
    assert ExecuteCommand(NewShellTool(), cmd, None, None, Host(Unix, dir, EchoRun)) == Ok((Ascii("hello\n"), 0));
  }

  /** `execute` on `echo hello` reports output containing `hello` and exit code 0. */
  lemma EchoCommandSucceeds(dir: Option<Bytes>)
    ensures var r := Execute(NewShellTool(), Some(Ascii("echo hello")), None, None, Host(Unix, dir, EchoRun));
            r == Ok(ShellResult(Ascii("hello\n"), 0, true)) && Contains(r.value.output, Ascii("hello"))
  {
    EchoAllowed();
    AllowedRunsOnEchoHost(Ascii("echo hello"), dir);
    HelloPrinted();
  }

  lemma HelloPrinted() ensures Contains(Ascii("hello\n"), Ascii("hello"))
  {
    assert OccursAt(Ascii("hello\n"), Ascii("hello"), 0);
  }

  function SleepRun(line: CommandLine, limit: Duration): RunOutcome {
    if limit < FromSecs(10) then TimedOut else Exited([], [], Some(0))
  }

  const SLEEP_DANGEROUS_PROBE: seq<nat> := [1, 0, 1, 1, 1, 1, 0, 0, 0, 0, 0, 0, 0]
  const SLEEP_DANGEROUS_PROBE_BYTES: set<byte> :=
    {'u' as int, 'd' as int, '|' as int, 'v' as int, '$' as int, '/' as int, '~' as int, '.' as int, 'i' as int}

  lemma SleepProbesHit()
    ensures forall j :: 0 <= j < |DANGEROUS_PATTERNS| ==>
              SLEEP_DANGEROUS_PROBE[j] < |DANGEROUS_PATTERNS[j]| && DANGEROUS_PATTERNS[j][SLEEP_DANGEROUS_PROBE[j]] in SLEEP_DANGEROUS_PROBE_BYTES
  {
  }

  lemma SleepIsLower() ensures Lower(Ascii("sleep 10")) == Ascii("sleep 10") { }

  lemma SleepIsAllowed() ensures BlockReason(false, Ascii("sleep 10")).None?
  {
    SleepIsLower();
    ProbesHit();
    SleepProbesHit();
    NoPatternContained(Ascii("sleep 10"), BLOCKED_COMMANDS, BLOCKED_PROBE, BLOCKED_PROBE_BYTES);
    NoPatternContained(Ascii("sleep 10"), DANGEROUS_PATTERNS, SLEEP_DANGEROUS_PROBE, SLEEP_DANGEROUS_PROBE_BYTES);
  }

  /** With a 100 ms limit, `sleep 10` ends in a timeout error that carries that limit. */
  lemma SleepTimesOut(dir: Option<Bytes>)
    ensures Execute(WithTimeout(NewShellTool(), 100_000_000), Some(Ascii("sleep 10")), None, None, Host(Unix, dir, SleepRun))
            == Err(Timeout(100_000_000))
  {
    var tool := WithTimeout(NewShellTool(), 100_000_000);
    var cmd := Ascii("sleep 10");
    var host := Host(Unix, dir, SleepRun);
    SleepIsAllowed();
    assert BlockReason(tool.allowDangerous, cmd).None?;
    var line := BuildCommandLine(Unix, cmd, EffectiveCwd(tool, None, host));
    assert EffectiveTimeout(tool, None) == 100_000_000;
    assert host.run(line, 100_000_000) == TimedOut;
    assert ExecuteCommand(tool, cmd, None, None, host) == Err(Timeout(100_000_000));
  }
}
