/**
 * The bridge's view of the external `adb` tool: which executable it uses
 * (`get_adb_path`), which emulator it talks to (`get_emulator_id`) and whether
 * an emulator is reachable (`check_emulator_status`).
 *
 * The tool itself is an oracle: a `Runner` tells, for each argument vector,
 * what `subprocess.run` gives back. Every method also returns the argument
 * vectors it handed to `subprocess.run`, in order.
 */
module Adb {
  import opened Wrappers
  import opened Text
  import opened LexOrder

  /** An argument vector handed to `subprocess.run`; element 0 is the executable. */
  type Argv = seq<string>

  /**
   * What `subprocess.run` gives back: the process exited with a return code
   * and its captured standard output, or the call raised (executable not
   * found, timeout expired, invalid argument).
   */
  datatype Outcome = Exited(code: int, stdout: string) | Raised

  /** The external tool as the bridge sees it. */
  type Runner = Argv -> Outcome

  /** `result.returncode == 0`, for a call that did not raise. */
  predicate ExitedZero(o: Outcome) {
    o.Exited? && o.code == 0
  }

  /** The places `get_adb_path` looks for the tool, in the order it tries them. */
  const AdbCandidates: seq<string> := [
    "adb",
    "C:\\Users\\ritwi\\AppData\\Local\\Android\\Sdk\\platform-tools\\adb.exe",
    "C:\\Android\\Sdk\\platform-tools\\adb.exe"
  ]

  function VersionArgv(path: string): Argv {
    [path, "version"]
  }

  function DevicesArgv(path: string): Argv {
    [path, "devices"]
  }

  /** The `version` probe of `path` exits 0. */
  predicate Answers(run: Runner, path: string) {
    ExitedZero(run(VersionArgv(path)))
  }

  /** The position of the first candidate that answers, or `|cands|` if none does. */
  function FirstAnswering(cands: seq<string>, run: Runner): (k: nat)
    ensures k <= |cands|
    ensures forall j :: 0 <= j < k ==> !Answers(run, cands[j])
    ensures k < |cands| ==> Answers(run, cands[k])
  {
    if |cands| == 0 then 0
    else if Answers(run, cands[0]) then 0
    else 1 + FirstAnswering(cands[1..], run)
  }

  /** The `version` probes of `paths`, in order. */
  function VersionProbes(paths: seq<string>): (r: seq<Argv>)
    ensures |r| == |paths|
    ensures forall i :: 0 <= i < |paths| ==> r[i] == VersionArgv(paths[i])
  {
    seq(|paths|, i requires 0 <= i < |paths| => VersionArgv(paths[i]))
  }

  /** The path `get_adb_path` returns: a candidate that answers, or `None` when none does. */
  function AdbPath(run: Runner): (p: Option<string>)
    ensures p.Some? ==> p.value in AdbCandidates && Answers(run, p.value)
    ensures p.None? ==> forall j :: 0 <= j < |AdbCandidates| ==> !Answers(run, AdbCandidates[j])
  {
    var k := FirstAnswering(AdbCandidates, run);
    if k < |AdbCandidates| then Some(AdbCandidates[k]) else None
  }

  /**
   * The probes `get_adb_path` issues: the `version` probes of the candidates
   * in order, up to and including the first that answers.
   */
  function ProbeCalls(run: Runner): (r: seq<Argv>)
    ensures 1 <= |r| <= |AdbCandidates|
    ensures forall i :: 0 <= i < |r| ==> r[i] == VersionArgv(AdbCandidates[i])
    ensures forall i :: 0 <= i < |r| - 1 ==> !Answers(run, AdbCandidates[i])
  {
    var k := FirstAnswering(AdbCandidates, run);
    VersionProbes(AdbCandidates[..if k < |AdbCandidates| then k + 1 else k])
  }

  /**
   * `get_adb_path` returns the first candidate, in list order, whose probe
   * exits 0, and `None` when none does; it probes no candidate after that one.
   */
  lemma AdbPathIsFirstAnswering(run: Runner)
    ensures AdbPath(run).Some? ==>
      exists k :: 0 <= k < |AdbCandidates| && AdbPath(run).value == AdbCandidates[k]
        && Answers(run, AdbCandidates[k])
        && (forall j :: 0 <= j < k ==> !Answers(run, AdbCandidates[j]))
        && ProbeCalls(run) == VersionProbes(AdbCandidates[..k + 1])
    ensures AdbPath(run).None? <==> forall j :: 0 <= j < |AdbCandidates| ==> !Answers(run, AdbCandidates[j])
    ensures AdbPath(run).None? ==> ProbeCalls(run) == VersionProbes(AdbCandidates)
  {
    var k := FirstAnswering(AdbCandidates, run);
    if k < |AdbCandidates| {
      assert AdbPath(run).value == AdbCandidates[k];
    } else {
      assert AdbCandidates[..k] == AdbCandidates;
    }
  }

  /** `get_adb_path`. */
  method GetAdbPath(run: Runner) returns (path: Option<string>, issued: seq<Argv>)
    ensures path == AdbPath(run)
    ensures issued == ProbeCalls(run)
  {
    issued := [];
    var i := 0;
    while i < |AdbCandidates|
      invariant 0 <= i <= |AdbCandidates|
      invariant forall j :: 0 <= j < i ==> !Answers(run, AdbCandidates[j])
      invariant issued == VersionProbes(AdbCandidates[..i])
    {
      var candidate := AdbCandidates[i];
      var result := run(VersionArgv(candidate));
      issued := issued + [VersionArgv(candidate)];
      assert issued == VersionProbes(AdbCandidates[..i + 1]);
      if result.Exited? && result.code == 0 {
        return Some(candidate), issued;
      }
      i := i + 1;
    }
    assert AdbCandidates[..i] == AdbCandidates;
    return None, issued;
  }

  /** The identifier `get_emulator_id` prefers above all others. */
  const PreferredEmulator: string := "emulator-5556"

  /** A listing line that mentions the preferred emulator and the state `device`. */
  predicate IsPreferredLine(line: string) {
    Contains(line, PreferredEmulator) && Contains(line, "device")
  }

  /** A listing line that mentions some emulator and the state `device`. */
  predicate IsEmulatorLine(line: string) {
    Contains(line, "emulator-") && Contains(line, "device")
  }

  predicate HasPreferredLine(lines: seq<string>) {
    exists k :: 0 <= k < |lines| && IsPreferredLine(lines[k])
  }

  predicate HasEmulatorLine(lines: seq<string>) {
    exists k :: 0 <= k < |lines| && IsEmulatorLine(lines[k])
  }

  /** The first TAB-fields of the emulator lines, in listing order. */
  function Candidates(lines: seq<string>): (c: seq<string>)
    ensures |c| <= |lines|
    ensures forall k :: 0 <= k < |c| ==> '\t' !in c[k]
  {
    if |lines| == 0 then []
    else
      var last := lines[|lines| - 1];
      Candidates(lines[..|lines| - 1]) + (if IsEmulatorLine(last) then [FirstField(last)] else [])
  }

  /**
   * The choice `get_emulator_id` makes from the lines of a device listing:
   * the preferred emulator or one of the collected first fields.
   */
  function SelectEmulator(lines: seq<string>): (id: Option<string>)
    ensures id.Some? ==> id.value == PreferredEmulator || id.value in Candidates(lines)
    ensures id.None? ==> Candidates(lines) == []
  {
    if HasPreferredLine(lines) then Some(PreferredEmulator)
    else
      var c := Candidates(lines);
      if |c| == 0 then None else Some(Greatest(c))
  }

  /** The lines of the standard output of `devices`. */
  function ListingLines(o: Outcome): seq<string>
    requires o.Exited?
  {
    Split(o.stdout, '\n')
  }

  /**
   * The identifier `get_emulator_id` returns: there is one only when a tool
   * path answers, its `devices` call does not raise, and the listing has an
   * emulator line.
   */
  function EmulatorId(run: Runner): (id: Option<string>)
    ensures id.Some? ==>
      AdbPath(run).Some?
      && run(DevicesArgv(AdbPath(run).value)).Exited?
      && HasEmulatorLine(ListingLines(run(DevicesArgv(AdbPath(run).value))))
  {
    match AdbPath(run)
    case None => None
    case Some(p) =>
      var o := run(DevicesArgv(p));
      if o.Raised? then None
      else
        SelectNoneIff(ListingLines(o));
        SelectEmulator(ListingLines(o))
  }

  /**
   * The calls `get_emulator_id` (and `check_emulator_status`) issue: the
   * probes, then at most one more call; each names a candidate executable and
   * one subcommand.
   */
  function DiscoveryCalls(run: Runner): (r: seq<Argv>)
    ensures ProbeCalls(run) <= r && |r| <= |ProbeCalls(run)| + 1
    ensures forall k :: 0 <= k < |r| ==> |r[k]| == 2 && r[k][0] in AdbCandidates
  {
    ProbeCalls(run) + (if AdbPath(run).Some? then [DevicesArgv(AdbPath(run).value)] else [])
  }

  /** A line naming the preferred emulator is an emulator line. */
  lemma PreferredLineIsEmulatorLine(line: string)
    requires IsPreferredLine(line)
    ensures IsEmulatorLine(line)
  {
    ContainsPrefix(line, PreferredEmulator, "emulator-");
  }

  /** A candidate is exactly the first TAB-field of some emulator line. */
  lemma {:induction false} CandidatesAreFirstFields(lines: seq<string>, x: string)
    ensures x in Candidates(lines)
        <==> exists k :: 0 <= k < |lines| && IsEmulatorLine(lines[k]) && FirstField(lines[k]) == x
  {
    if |lines| > 0 {
      var init := lines[..|lines| - 1];
      CandidatesAreFirstFields(init, x);
      if exists k :: 0 <= k < |lines| && IsEmulatorLine(lines[k]) && FirstField(lines[k]) == x {
        var k :| 0 <= k < |lines| && IsEmulatorLine(lines[k]) && FirstField(lines[k]) == x;
        if k < |lines| - 1 {
          assert init[k] == lines[k];
        }
      }
      if x in Candidates(init) {
        var k :| 0 <= k < |init| && IsEmulatorLine(init[k]) && FirstField(init[k]) == x;
        assert lines[k] == init[k];
      }
    }
  }

  /** There are candidates exactly when some line is an emulator line. */
  lemma {:induction false} CandidatesEmptyIff(lines: seq<string>)
    ensures |Candidates(lines)| == 0 <==> !HasEmulatorLine(lines)
  {
    if HasEmulatorLine(lines) {
      var k :| 0 <= k < |lines| && IsEmulatorLine(lines[k]);
      CandidatesAreFirstFields(lines, FirstField(lines[k]));
    } else if |Candidates(lines)| > 0 {
      CandidatesAreFirstFields(lines, Candidates(lines)[0]);
    }
  }

  /** A line naming the preferred emulator (and `device`) wins, whatever else is listed. */
  lemma SelectPrefers(lines: seq<string>, k: nat)
    requires k < |lines| && IsPreferredLine(lines[k])
    ensures SelectEmulator(lines) == Some(PreferredEmulator)
  {
  }

  /**
   * Without such a line, the choice is the greatest candidate in string order,
   * which is the first TAB-field of one of the emulator lines.
   */
  lemma SelectGreatestCandidate(lines: seq<string>)
    requires !HasPreferredLine(lines) && HasEmulatorLine(lines)
    ensures SelectEmulator(lines).Some?
    ensures var x := SelectEmulator(lines).value;
      x in Candidates(lines)
      && (forall y :: y in Candidates(lines) ==> Below(y, x))
      && exists k :: 0 <= k < |lines| && IsEmulatorLine(lines[k]) && FirstField(lines[k]) == x
  {
    CandidatesEmptyIff(lines);
    var x := Greatest(Candidates(lines));
    CandidatesAreFirstFields(lines, x);
  }

  /** No emulator is chosen exactly when no line is an emulator line. */
  lemma SelectNoneIff(lines: seq<string>)
    ensures SelectEmulator(lines).None? <==> !HasEmulatorLine(lines)
  {
    CandidatesEmptyIff(lines);
    if HasPreferredLine(lines) {
      var k :| 0 <= k < |lines| && IsPreferredLine(lines[k]);
      PreferredLineIsEmulatorLine(lines[k]);
    }
  }

  /**
   * `get_emulator_id` returns `None` exactly when no tool path is found, the
   * `devices` call raises, or no line of its output is an emulator line. The
   * exit code of `devices` plays no part.
   */
  lemma EmulatorIdNoneIff(run: Runner)
    ensures EmulatorId(run).None? <==>
      AdbPath(run).None?
      || run(DevicesArgv(AdbPath(run).value)).Raised?
      || !HasEmulatorLine(ListingLines(run(DevicesArgv(AdbPath(run).value))))
  {
    if AdbPath(run).Some? && run(DevicesArgv(AdbPath(run).value)).Exited? {
      SelectNoneIff(ListingLines(run(DevicesArgv(AdbPath(run).value))));
    }
  }

  /** Two tools that answer every `version` probe alike yield the same path. */
  lemma {:induction false} FirstAnsweringAgrees(cands: seq<string>, run: Runner, run': Runner)
    requires forall p :: run(VersionArgv(p)) == run'(VersionArgv(p))
    ensures FirstAnswering(cands, run) == FirstAnswering(cands, run')
  {
    if |cands| > 0 {
      FirstAnsweringAgrees(cands[1..], run, run');
    }
  }

  /**
   * `get_emulator_id` ignores the exit code of `devices`: two tools that agree
   * on every probe and print the same listing give the same identifier.
   */
  lemma EmulatorIdIgnoresExitCode(run: Runner, run': Runner)
    requires forall p :: run(VersionArgv(p)) == run'(VersionArgv(p))
    requires forall p :: run(DevicesArgv(p)).Raised? == run'(DevicesArgv(p)).Raised?
    requires forall p :: run(DevicesArgv(p)).Exited? ==> run(DevicesArgv(p)).stdout == run'(DevicesArgv(p)).stdout
    ensures EmulatorId(run) == EmulatorId(run')
  {
    FirstAnsweringAgrees(AdbCandidates, run, run');
  }

  /** `get_emulator_id`. */
  method GetEmulatorId(run: Runner) returns (id: Option<string>, issued: seq<Argv>)
    ensures id == EmulatorId(run)
    ensures issued == DiscoveryCalls(run)
  {
    var adb;
    adb, issued := GetAdbPath(run);
    if adb.None? {
      return None, issued;
    }
    var result := run(DevicesArgv(adb.value));
    issued := issued + [DevicesArgv(adb.value)];
    if result.Raised? {
      return None, issued;
    }
    id := SelectFromListing(ListingLines(result));
  }

  /** The selection part of `get_emulator_id`, over the lines of the listing. */
  method SelectFromListing(lines: seq<string>) returns (id: Option<string>)
    ensures id == SelectEmulator(lines)
  {
    // First, look for the preferred emulator.
    var i := 0;
    while i < |lines|
      invariant 0 <= i <= |lines|
      invariant forall k :: 0 <= k < i ==> !IsPreferredLine(lines[k])
    {
      if Contains(lines[i], PreferredEmulator) && Contains(lines[i], "device") {
        return Some(PreferredEmulator);
      }
      i := i + 1;
    }
    // Otherwise collect every emulator and take the greatest.
    var emulators: seq<string> := [];
    i := 0;
    while i < |lines|
      invariant 0 <= i <= |lines|
      invariant emulators == Candidates(lines[..i])
    {
      assert lines[..i + 1][..i] == lines[..i];
      if Contains(lines[i], "emulator-") && Contains(lines[i], "device") {
        emulators := emulators + [FirstField(lines[i])];
      }
      i := i + 1;
    }
    assert lines[..i] == lines;
    if |emulators| > 0 {
      ghost var found := emulators;
      emulators := SortDesc(emulators);
      SortedHeadIsGreatest(emulators, found);
      return Some(emulators[0]);
    }
    return None;
  }

  /**
   * `check_emulator_status`: true exactly when a tool path is found, its
   * `devices` call exits 0, and some line of the listing is an emulator line.
   */
  method CheckEmulatorStatus(run: Runner) returns (ok: bool, issued: seq<Argv>)
    ensures ok <==>
      AdbPath(run).Some?
      && ExitedZero(run(DevicesArgv(AdbPath(run).value)))
      && HasEmulatorLine(ListingLines(run(DevicesArgv(AdbPath(run).value))))
    ensures issued == DiscoveryCalls(run)
  {
    var adb;
    adb, issued := GetAdbPath(run);
    if adb.None? {
      return false, issued;
    }
    var result := run(DevicesArgv(adb.value));
    issued := issued + [DevicesArgv(adb.value)];
    if result.Raised? || result.code != 0 {
      return false, issued;
    }
    var lines := Split(result.stdout, '\n');
    var i := 0;
    while i < |lines|
      invariant 0 <= i <= |lines|
    {
      if Contains(lines[i], PreferredEmulator) && Contains(lines[i], "device") {
        PreferredLineIsEmulatorLine(lines[i]);
        return true, issued;
      }
      i := i + 1;
    }
    i := 0;
    while i < |lines|
      invariant 0 <= i <= |lines|
      invariant forall k :: 0 <= k < i ==> !IsEmulatorLine(lines[k])
    {
      if Contains(lines[i], "emulator-") && Contains(lines[i], "device") {
        return true, issued;
      }
      i := i + 1;
    }
    return false, issued;
  }

  /** When the status check succeeds, `get_emulator_id` finds an emulator too. */
  lemma StatusFindsEmulator(run: Runner)
    requires AdbPath(run).Some?
    requires ExitedZero(run(DevicesArgv(AdbPath(run).value)))
    requires HasEmulatorLine(ListingLines(run(DevicesArgv(AdbPath(run).value))))
    ensures EmulatorId(run).Some?
  {
    EmulatorIdNoneIff(run);
  }
}
