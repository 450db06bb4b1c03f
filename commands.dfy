/**
 * Command dispatch (`execute_command`): a remote-control command becomes the
 * `adb` invocations that carry it out, and a boolean result.
 */
module Commands {
  import opened Wrappers
  import opened KeyCodes
  import opened Text
  import opened Adb

  /**
   * A parsed command body. `kind` is its `type` field; each field is `None`
   * when the body does not carry it (`command.get(...)` gives `None`).
   */
  datatype Command = Command(
    kind: Option<string>,
    code: Option<string>,
    text: Option<string>,
    package: Option<string>)

  /** The package that gets the settings intent instead of the launcher intent. */
  const SettingsPackage: string := "com.android.tv.settings"

  predicate IsKnownKind(kind: Option<string>) {
    kind == Some("key") || kind == Some("text") || kind == Some("launch")
  }

  /** `if not emulator_id`: `None` and the empty string both mean "no target". */
  predicate IsTarget(id: Option<string>) {
    id.Some? && id.value != ""
  }

  /** An invocation addressed to a device (`adb -s <id> ...`), as opposed to a probe or a listing. */
  predicate IsControl(argv: Argv) {
    |argv| > 2 && argv[1] == "-s"
  }

  /** The device-addressed invocations of a trace, in order. */
  function ControlCalls(trace: seq<Argv>): (r: seq<Argv>)
    ensures forall k :: 0 <= k < |r| ==> IsControl(r[k])
  {
    if |trace| == 0 then []
    else ControlCalls(trace[..|trace| - 1]) + (if IsControl(trace[|trace| - 1]) then [trace[|trace| - 1]] else [])
  }

  lemma {:induction false} ControlCallsAppend(a: seq<Argv>, b: seq<Argv>)
    ensures ControlCalls(a + b) == ControlCalls(a) + ControlCalls(b)
    decreases |b|
  {
    if |b| == 0 {
      assert a + b == a;
    } else {
      var init := b[..|b| - 1];
      ControlCallsAppend(a, init);
      assert (a + b)[..|a + b| - 1] == a + init;
    }
  }

  /** Probes and listings never address a device. */
  lemma DiscoveryIsNotControl(run: Runner)
    ensures ControlCalls(DiscoveryCalls(run)) == []
    ensures ControlCalls(ProbeCalls(run)) == []
  {
    forall trace: seq<Argv> | forall k :: 0 <= k < |trace| ==> |trace[k]| == 2
      ensures ControlCalls(trace) == []
    {
      NoControlInPairs(trace);
    }
  }

  lemma {:induction false} NoControlInPairs(trace: seq<Argv>)
    requires forall k :: 0 <= k < |trace| ==> |trace[k]| == 2
    ensures ControlCalls(trace) == []
  {
    if |trace| > 0 {
      NoControlInPairs(trace[..|trace| - 1]);
    }
  }

  lemma {:induction false} OnlyControl(trace: seq<Argv>)
    requires forall k :: 0 <= k < |trace| ==> IsControl(trace[k])
    ensures ControlCalls(trace) == trace
  {
    if |trace| > 0 {
      OnlyControl(trace[..|trace| - 1]);
    }
  }

  function KeyArgv(adb: string, id: string, code: string): Argv {
    [adb, "-s", id, "shell", "input", "keyevent", code]
  }

  /** `f'"{text}"'`: the text between double quotes; a missing text prints as `None`. */
  function QuotedText(text: Option<string>): (q: string)
    ensures |q| >= 2 && q[0] == '"' && q[|q| - 1] == '"'
    ensures text.Some? ==> q[1..|q| - 1] == text.value
    ensures text.None? ==> q == "\"None\""
  {
    "\"" + (match text case Some(t) => t case None => "None") + "\""
  }

  function TextArgv(adb: string, id: string, text: Option<string>): Argv {
    [adb, "-s", id, "shell", "input", "text", QuotedText(text)]
  }

  function SettingsArgv(adb: string, id: string): Argv {
    [adb, "-s", id, "shell", "am", "start", "-a", "android.settings.SETTINGS"]
  }

  function LauncherArgv(adb: string, id: string, package: string): Argv {
    [adb, "-s", id, "shell", "am", "start",
     "-a", "android.intent.action.MAIN",
     "-c", "android.intent.category.LAUNCHER",
     package]
  }

  function MonkeyArgv(adb: string, id: string, package: string): Argv {
    [adb, "-s", id, "shell", "monkey", "-p", package, "1"]
  }

  /** The first launch attempt for a package. */
  function PrimaryLaunchArgv(adb: string, id: string, package: string): Argv {
    if package == SettingsPackage then SettingsArgv(adb, id) else LauncherArgv(adb, id, package)
  }

  /** The result of `execute_command` and every call it handed to `subprocess.run`. */
  datatype Report = Report(success: bool, issued: seq<Argv>)

  /** What the command-specific part of `execute_command` does once a tool path and a target are known. */
  function Control(cmd: Command, adb: string, id: string, run: Runner): (r: Report)
    requires IsKnownKind(cmd.kind)
    ensures forall k :: 0 <= k < |r.issued| ==> IsControl(r.issued[k])
  {
    if cmd.kind == Some("key") then
      var argv := KeyArgv(adb, id, KeyCode(cmd.code));
      Report(ExitedZero(run(argv)), [argv])
    else if cmd.kind == Some("text") then
      var argv := TextArgv(adb, id, cmd.text);
      Report(ExitedZero(run(argv)), [argv])
    else
      match cmd.package
      // Building the argument list with `None` in it makes `subprocess.run` raise before anything runs.
      case None => Report(false, [])
      case Some(package) =>
        var primary := PrimaryLaunchArgv(adb, id, package);
        var first := run(primary);
        if first.Raised? then Report(false, [primary])
        else if first.code == 0 then Report(true, [primary])
        else
          var monkey := MonkeyArgv(adb, id, package);
          Report(ExitedZero(run(monkey)), [primary, monkey])
  }

  /**
   * `execute_command`. `discover` answers the calls of its `get_emulator_id`;
   * `run` answers every call after it, starting with its own `get_adb_path`.
   * A command that succeeds had a known type, a target and a tool path, and
   * a command of a known type issues the discovery calls first.
   */
  function Execution(cmd: Command, discover: Runner, run: Runner): (r: Report)
    ensures r.success ==> IsKnownKind(cmd.kind) && IsTarget(EmulatorId(discover)) && AdbPath(run).Some?
    ensures IsKnownKind(cmd.kind) ==> DiscoveryCalls(discover) <= r.issued
  {
    if !IsKnownKind(cmd.kind) then Report(false, [])
    else
      var discovery := DiscoveryCalls(discover);
      var id := EmulatorId(discover);
      if !IsTarget(id) then Report(false, discovery)
      else
        var probes := ProbeCalls(run);
        match AdbPath(run)
        case None => Report(false, discovery + probes)
        case Some(adb) =>
          var r := Control(cmd, adb, id.value, run);
          Report(r.success, discovery + probes + r.issued)
  }

  /** `execute_command`, step by step against the tool. */
  method ExecuteCommand(cmd: Command, discover: Runner, run: Runner) returns (success: bool, issued: seq<Argv>)
    ensures Report(success, issued) == Execution(cmd, discover, run)
  {
    issued := [];
    if !(cmd.kind == Some("key") || cmd.kind == Some("text") || cmd.kind == Some("launch")) {
      return false, issued;
    }
    var id, discovery := GetEmulatorId(discover);
    issued := discovery;
    if id.None? || id.value == "" {
      return false, issued;
    }
    var adb, probes := GetAdbPath(run);
    issued := issued + probes;
    if adb.None? {
      return false, issued;
    }
    if cmd.kind == Some("key") {
      var argv := KeyArgv(adb.value, id.value, KeyCode(cmd.code));
      var result := run(argv);
      issued := issued + [argv];
      success := result.Exited? && result.code == 0;
    } else if cmd.kind == Some("text") {
      var argv := TextArgv(adb.value, id.value, cmd.text);
      var result := run(argv);
      issued := issued + [argv];
      success := result.Exited? && result.code == 0;
    } else {
      if cmd.package.None? {
        return false, issued;
      }
      var package := cmd.package.value;
      var primary := PrimaryLaunchArgv(adb.value, id.value, package);
      var result := run(primary);
      issued := issued + [primary];
      if result.Raised? {
        return false, issued;
      }
      if result.code == 0 {
        return true, issued;
      }
      var monkey := MonkeyArgv(adb.value, id.value, package);
      var monkeyResult := run(monkey);
      issued := issued + [monkey];
      success := monkeyResult.Exited? && monkeyResult.code == 0;
    }
  }

  /** A command of any other type fails at once, issuing nothing at all. */
  lemma UnknownKindIssuesNothing(cmd: Command, discover: Runner, run: Runner)
    requires !IsKnownKind(cmd.kind)
    ensures Execution(cmd, discover, run) == Report(false, [])
  {
  }

  /** Without a target, every command fails after discovery, addressing no device. */
  lemma NoTargetNoControl(cmd: Command, discover: Runner, run: Runner)
    requires IsKnownKind(cmd.kind) && !IsTarget(EmulatorId(discover))
    ensures !Execution(cmd, discover, run).success
    ensures Execution(cmd, discover, run).issued == DiscoveryCalls(discover)
    ensures ControlCalls(Execution(cmd, discover, run).issued) == []
  {
    DiscoveryIsNotControl(discover);
  }

  /**
   * A target was found, but the second `get_adb_path` finds no tool: the
   * command fails after probing again, addressing no device.
   */
  lemma NoAdbNoControl(cmd: Command, discover: Runner, run: Runner)
    requires IsKnownKind(cmd.kind) && IsTarget(EmulatorId(discover)) && AdbPath(run).None?
    ensures !Execution(cmd, discover, run).success
    ensures Execution(cmd, discover, run).issued == DiscoveryCalls(discover) + ProbeCalls(run)
    ensures ControlCalls(Execution(cmd, discover, run).issued) == []
  {
    DiscoveryIsNotControl(discover);
    DiscoveryIsNotControl(run);
    ControlCallsAppend(DiscoveryCalls(discover), ProbeCalls(run));
  }

  /**
   * A tool that stays the same between discovery and the rest of the command
   * is found again by the second `get_adb_path`, at the same path.
   */
  lemma SameToolFoundAgain(run: Runner)
    requires IsTarget(EmulatorId(run))
    ensures AdbPath(run).Some?
    ensures DiscoveryCalls(run) == ProbeCalls(run) + [DevicesArgv(AdbPath(run).value)]
  {
  }

  /** A `devices` listing whose only line is the TV emulator, ready. */
  function TvListing(): string {
    "emulator-5556\tdevice"
  }

  /** A tool on the search path that lists the TV emulator as its only device. */
  function ToolWithTv(): Runner {
    argv => if |argv| == 2 && argv[0] == "adb" then Exited(0, TvListing()) else Raised
  }

  /** No tool at all: every call raises. */
  function NoTool(): Runner {
    argv => Raised
  }

  /** That tool answers at the first candidate, `adb`. */
  lemma ToolWithTvPath()
    ensures AdbPath(ToolWithTv()) == Some("adb")
  {
    assert Answers(ToolWithTv(), AdbCandidates[0]);
  }

  /** That listing is one line, naming the TV emulator and the state `device`. */
  lemma TvListingNamesTv()
    ensures '\n' !in TvListing()
    ensures IsPreferredLine(TvListing())
  {
    assert PreferredEmulator <= TvListing();
    assert OccursAt(TvListing(), "device", 14);
  }

  /** A one-line listing naming the TV emulator and `device` selects the TV emulator. */
  lemma OneLineListingSelectsTv(listing: string)
    requires '\n' !in listing && IsPreferredLine(listing)
    ensures SelectEmulator(ListingLines(Exited(0, listing))) == Some(PreferredEmulator)
  {
    SplitWithoutSep(listing, '\n');
    SelectPrefers([listing], 0);
  }

  /** Discovery against that tool finds the TV emulator. */
  lemma ToolWithTvFindsTv()
    ensures EmulatorId(ToolWithTv()) == Some(PreferredEmulator)
  {
    ToolWithTvPath();
    TvListingNamesTv();
    OneLineListingSelectsTv(TvListing());
  }

  /** Without a tool, `get_adb_path` probes all three candidates and finds nothing. */
  lemma NoToolNoPath()
    ensures AdbPath(NoTool()).None?
    ensures ProbeCalls(NoTool()) == VersionProbes(AdbCandidates)
  {
    AdbPathIsFirstAnswering(NoTool());
  }

  /**
   * The tool vanishes after discovery: the home key finds `emulator-5556`,
   * then the second `get_adb_path` probes all three candidates in vain and
   * the command fails, so the branch at lines 189-192 is reachable.
   */
  lemma ToolVanishesScenario()
    ensures var cmd := Command(Some("key"), Some("KEYCODE_HOME"), None, None);
      !Execution(cmd, ToolWithTv(), NoTool()).success
      && Execution(cmd, ToolWithTv(), NoTool()).issued
         == DiscoveryCalls(ToolWithTv()) + VersionProbes(AdbCandidates)
  {
    ToolWithTvFindsTv();
    NoToolNoPath();
    var cmd := Command(Some("key"), Some("KEYCODE_HOME"), None, None);
    NoAdbNoControl(cmd, ToolWithTv(), NoTool());
  }

  /** Once a tool path and a target are known, the trace is discovery, probes, then the control calls. */
  lemma ExecutionTrace(cmd: Command, discover: Runner, run: Runner, adb: string, id: string)
    requires IsKnownKind(cmd.kind)
    requires AdbPath(run) == Some(adb) && EmulatorId(discover) == Some(id) && id != ""
    ensures Execution(cmd, discover, run).issued
        == DiscoveryCalls(discover) + ProbeCalls(run) + Control(cmd, adb, id, run).issued
    ensures ControlCalls(Execution(cmd, discover, run).issued) == Control(cmd, adb, id, run).issued
    ensures Execution(cmd, discover, run).success == Control(cmd, adb, id, run).success
  {
    var c := Control(cmd, adb, id, run);
    assert Execution(cmd, discover, run) == Report(c.success, DiscoveryCalls(discover) + ProbeCalls(run) + c.issued);
    DiscoveryIsNotControl(discover);
    DiscoveryIsNotControl(run);
    ControlSuffix(DiscoveryCalls(discover), ProbeCalls(run), c.issued);
  }

  /** Behind probes and listings, the control calls of a trace are its device-addressed tail. */
  lemma ControlSuffix(discovery: seq<Argv>, probes: seq<Argv>, control: seq<Argv>)
    requires ControlCalls(discovery) == [] && ControlCalls(probes) == []
    requires forall k :: 0 <= k < |control| ==> IsControl(control[k])
    ensures ControlCalls(discovery + probes + control) == control
  {
    ControlCallsAppend(discovery, probes);
    ControlCallsAppend(discovery + probes, control);
    OnlyControl(control);
  }

  /** `key`: one control call injecting the resolved key code; success is its exit code 0. */
  lemma KeyCommand(cmd: Command, discover: Runner, run: Runner, adb: string, id: string)
    requires cmd.kind == Some("key")
    requires AdbPath(run) == Some(adb) && EmulatorId(discover) == Some(id) && id != ""
    ensures var argv := [adb, "-s", id, "shell", "input", "keyevent", KeyCode(cmd.code)];
      ControlCalls(Execution(cmd, discover, run).issued) == [argv]
      && Execution(cmd, discover, run).issued == DiscoveryCalls(discover) + ProbeCalls(run) + [argv]
      && Execution(cmd, discover, run).success == ExitedZero(run(argv))
  {
    ExecutionTrace(cmd, discover, run, adb, id);
  }

  /** `text`: one control call whose last argument is the text in double quotes. */
  lemma TextCommand(cmd: Command, discover: Runner, run: Runner, adb: string, id: string, text: string)
    requires cmd.kind == Some("text") && cmd.text == Some(text)
    requires AdbPath(run) == Some(adb) && EmulatorId(discover) == Some(id) && id != ""
    ensures var argv := [adb, "-s", id, "shell", "input", "text", "\"" + text + "\""];
      ControlCalls(Execution(cmd, discover, run).issued) == [argv]
      && Execution(cmd, discover, run).success == ExitedZero(run(argv))
  {
    ExecutionTrace(cmd, discover, run, adb, id);
  }

  /** The launch part of `Control`: the first attempt, then the fallback after a nonzero exit. */
  lemma LaunchControl(cmd: Command, adb: string, id: string, package: string, run: Runner)
    requires cmd.kind == Some("launch") && cmd.package == Some(package)
    ensures var primary := PrimaryLaunchArgv(adb, id, package);
      var monkey := MonkeyArgv(adb, id, package);
      var c := Control(cmd, adb, id, run);
      1 <= |c.issued| <= 2
      && c.issued[0] == primary
      && (|c.issued| == 2 <==> run(primary).Exited? && run(primary).code != 0)
      && (|c.issued| == 2 ==> c.issued[1] == monkey)
      && (c.success <==>
            ExitedZero(run(primary)) || (run(primary).Exited? && run(primary).code != 0 && ExitedZero(run(monkey))))
  {
  }

  /** `launch` of the TV settings package starts the settings intent first. */
  lemma LaunchSettingsFirst(cmd: Command, discover: Runner, run: Runner, adb: string, id: string)
    requires cmd.kind == Some("launch") && cmd.package == Some(SettingsPackage)
    requires AdbPath(run) == Some(adb) && EmulatorId(discover) == Some(id) && id != ""
    ensures var control := ControlCalls(Execution(cmd, discover, run).issued);
      |control| > 0
      && control[0] == [adb, "-s", id, "shell", "am", "start", "-a", "android.settings.SETTINGS"]
  {
    ExecutionTrace(cmd, discover, run, adb, id);
    LaunchControl(cmd, adb, id, SettingsPackage, run);
  }

  /** `launch` of any other package starts it through the MAIN/LAUNCHER intent first. */
  lemma LaunchOtherFirst(cmd: Command, discover: Runner, run: Runner, adb: string, id: string, package: string)
    requires cmd.kind == Some("launch") && cmd.package == Some(package) && package != SettingsPackage
    requires AdbPath(run) == Some(adb) && EmulatorId(discover) == Some(id) && id != ""
    ensures var control := ControlCalls(Execution(cmd, discover, run).issued);
      |control| > 0
      && control[0] == [adb, "-s", id, "shell", "am", "start", "-a", "android.intent.action.MAIN",
                        "-c", "android.intent.category.LAUNCHER", package]
  {
    ExecutionTrace(cmd, discover, run, adb, id);
    LaunchControl(cmd, adb, id, package, run);
  }

  /**
   * `launch`: the `monkey` fallback is issued, once, exactly when the first
   * attempt exits with a nonzero code (a first attempt that raises gets no
   * fallback); the command succeeds when the first attempt exits 0 or the
   * fallback does.
   */
  lemma LaunchFallback(cmd: Command, discover: Runner, run: Runner, adb: string, id: string, package: string)
    requires cmd.kind == Some("launch") && cmd.package == Some(package)
    requires AdbPath(run) == Some(adb) && EmulatorId(discover) == Some(id) && id != ""
    ensures var primary := PrimaryLaunchArgv(adb, id, package);
      var monkey := [adb, "-s", id, "shell", "monkey", "-p", package, "1"];
      var control := ControlCalls(Execution(cmd, discover, run).issued);
      1 <= |control| <= 2
      && control[0] == primary
      && (|control| == 2 <==> run(primary).Exited? && run(primary).code != 0)
      && (|control| == 2 ==> control[1] == monkey)
      && (Execution(cmd, discover, run).success <==>
            ExitedZero(run(primary)) || (run(primary).Exited? && run(primary).code != 0 && ExitedZero(run(monkey))))
  {
    ExecutionTrace(cmd, discover, run, adb, id);
    LaunchControl(cmd, adb, id, package, run);
  }

  /** `launch` without a package fails without addressing the device. */
  lemma LaunchWithoutPackage(cmd: Command, discover: Runner, run: Runner)
    requires cmd.kind == Some("launch") && cmd.package.None?
    ensures !Execution(cmd, discover, run).success
    ensures ControlCalls(Execution(cmd, discover, run).issued) == []
  {
    if !IsTarget(EmulatorId(discover)) {
      NoTargetNoControl(cmd, discover, run);
    } else if AdbPath(run).None? {
      NoAdbNoControl(cmd, discover, run);
    } else {
      ExecutionTrace(cmd, discover, run, AdbPath(run).value, EmulatorId(discover).value);
    }
  }

  /** A command fails whenever it addresses no device. */
  lemma SuccessNeedsControl(cmd: Command, discover: Runner, run: Runner)
    requires Execution(cmd, discover, run).success
    ensures |ControlCalls(Execution(cmd, discover, run).issued)| > 0
  {
    ExecutionTrace(cmd, discover, run, AdbPath(run).value, EmulatorId(discover).value);
  }

  /** The home key, with a target: one call carrying code 3; success is its exit code 0. */
  lemma HomeKeyScenario(discover: Runner, run: Runner, adb: string, id: string)
    requires AdbPath(run) == Some(adb) && EmulatorId(discover) == Some(id) && id != ""
    ensures var cmd := Command(Some("key"), Some("KEYCODE_HOME"), None, None);
      var control := ControlCalls(Execution(cmd, discover, run).issued);
      |control| == 1 && control[0][|control[0]| - 1] == "3"
      && Execution(cmd, discover, run).success == ExitedZero(run(control[0]))
  {
    var cmd := Command(Some("key"), Some("KEYCODE_HOME"), None, None);
    SystemKeyCodes();
    KeyCommand(cmd, discover, run, adb, id);
  }
}
