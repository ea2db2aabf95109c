/** main's checks of the command line, from the splitting of the `-f` values to the last
    usage error: which combinations of options are refused, in which order, and what is
    settled when they pass (the command, the vmstat repeat count, the host list and the
    batch size). Each refusal ends dcli with exit code 2. */
module Validation {
  import opened Wrappers
  import opened Text
  import HostList
  import Vmstat
  import RemoteCommand
  import Batches

  /** The options main reads, as parsed. Absent string options are "" and absent lists
      are empty (Python treats None, "" and [] alike in these tests). */
  datatype Options = Options(
    args: seq<string>,          // the remote command's words
    list: bool,                 // -t
    execArg: string,            // -x, before stripping
    fileArgs: seq<string>,      // the -f values, before splitting
    destfile: string,           // -d
    pushKey: bool,              // -k
    konepw: bool,               // --key-with-one-password
    dropKey: bool,              // --unkey
    vmstatOps: Option<string>,  // --vmstat
    hideStderr: bool,           // --hidestderr
    listNegatives: bool,        // -n
    regexp: string,             // -r
    ctimeout: Option<int>,      // --ctimeout
    userID: string,             // -l
    rootWithExaTmp: bool,       // --root-exadatatmp
    maxThds: int,               // --batchsize (0 when absent)
    serializeOps: bool,         // --serial
    cells: seq<string>,         // the -c values
    groupfile: string,          // -g
    timeout: Option<string>)    // --timeout as printed, when set and nonzero

  /** What main learns from outside while checking: whether an SSH key is at hand (found
      or generated), the lines of the group file (`None` when it cannot be read), the
      open-file limit, and whether a file to copy (`false`) or execute (`true`) passes
      checkFile. */
  datatype Environment = Environment(
    keysReady: bool,
    groupLines: Option<seq<string>>,
    fdLimit: Option<int>,
    fileOk: (string, bool) -> bool)

  /** The reasons main refuses a command line, in the order it tests them. */
  datatype Refusal =
    | NoCommand                 // "No command specified."
    | CommandAndExec            // "Cannot specify both command and exec file"
    | CopyAndExec               // "Cannot specify both copy file and exec file"
    | HideStderrWithoutCommand  // "hidestderr(--hi) option is only used when remote command is specified"
    | NegativesAndRegexp        // "Cannot specify both non-error and regular expression abbrevation options"
    | VmstatWithFiles           // "Cannot specify vmstat option with copy file, exec file, or command"
    | VmstatWithAbbreviation    // "Cannot specify vmstat option with abbreviate options"
    | NoKey                     // checkKeys could neither find nor generate a key
    | NegativeTimeout           // "--ctimeout value must be a positive number"
    | RootTmpNotRoot            // "root-exadatatmp implies root user. ..."
    | HostFileUnreadable(name: string)  // buildCellList's I/O error on the group file
    | SerialAndBatch            // "Cannot specify both serial mode and batch mode"
    | BatchTooSmall             // "Cannot specify batchsize less than 1"
    | NoHosts                   // "No hosts specified."
    | BadFile(path: string)     // checkFile's error on a file to copy or execute
    | DestWithoutFile           // "Cannot specify destination without copy file or exec file"

  /** What the checks settle when they all pass. */
  datatype Plan = Plan(command: Option<string>, vmstatCount: Option<int>, clist: seq<string>, batch: bool,
                       maxThds: int)

  /** The position of each refusal among main's tests. */
  function Rank(k: Refusal): (n: nat)
    ensures n < 16
  {
    match k
    case NoCommand => 0
    case CommandAndExec => 1
    case CopyAndExec => 2
    case HideStderrWithoutCommand => 3
    case NegativesAndRegexp => 4
    case VmstatWithFiles => 5
    case VmstatWithAbbreviation => 6
    case NoKey => 7
    case NegativeTimeout => 8
    case RootTmpNotRoot => 9
    case HostFileUnreadable(_) => 10
    case SerialAndBatch => 11
    case BatchTooSmall => 12
    case NoHosts => 13
    case BadFile(_) => 14
    case DestWithoutFile => 15
  }

  /** The files to copy: every -f value split on whitespace, in order. */
  function Files(fileArgs: seq<string>): seq<string>
  {
    if |fileArgs| == 0 then [] else Files(fileArgs[..|fileArgs| - 1]) + SplitWs(fileArgs[|fileArgs| - 1])
  }

  /** The file to execute, stripped ("" when none). */
  function ExecFile(o: Options): string
  {
    Strip(o.execArg)
  }

  /** The key options: -k, --key-with-one-password and --unkey. */
  predicate KeyOps(o: Options)
  {
    o.pushKey || o.konepw || o.dropKey
  }

  /** The vmstat options after main turns an empty value into a single space. */
  function VmstatOptions(o: Options): Option<string>
  {
    if o.vmstatOps == Some("") then Some(" ") else o.vmstatOps
  }

  /** The host list buildCellList gives, or the stripped name of the unreadable group file. */
  function Hosts(o: Options, env: Environment): Result<seq<string>, string>
  {
    if o.groupfile != "" && env.groupLines.None? then Err(Strip(o.groupfile))
    else Ok(HostList.Dedup(HostList.Candidates(o.cells, if o.groupfile == "" then [] else env.groupLines.value)))
  }

  /** The first file checkFile refuses: the file to execute, then the files to copy in order. */
  function FirstBadFile(o: Options, env: Environment): Option<string>
  {
    if ExecFile(o) != "" && !env.fileOk(ExecFile(o), true) then Some(ExecFile(o))
    else FirstBadCopy(Files(o.fileArgs), env.fileOk)
  }

  function FirstBadCopy(files: seq<string>, fileOk: (string, bool) -> bool): (r: Option<string>)
    ensures r.Some? ==> r.value in files && !fileOk(r.value, false)
    ensures r.None? ==> forall f :: f in files ==> fileOk(f, false)
  {
    if |files| == 0 then None
    else if !fileOk(files[0], false) then Some(files[0])
    else FirstBadCopy(files[1..], fileOk)
  }

  /** What main derives from the options before testing them: the files to copy, the
      file to execute, the host list (or the unreadable group file) and the first file
      checkFile refuses. */
  datatype Derived = Derived(files: seq<string>, execFile: string, hosts: Result<seq<string>, string>,
                             badFile: Option<string>)

  function Derive(o: Options, env: Environment): Derived
  {
    Derived(Files(o.fileArgs), ExecFile(o), Hosts(o, env), FirstBadFile(o, env))
  }

  /** Whether the test behind refusal `k` fails on these options, each stated on its own. */
  predicate Violated(o: Options, env: Environment, d: Derived, k: Refusal)
  {
    match k
    case NoCommand =>
      |o.args| == 0 && !(o.list || d.execFile != "" || |d.files| > 0 || KeyOps(o) || o.vmstatOps.Some?)
    case CommandAndExec => |o.args| > 0 && d.execFile != ""
    case CopyAndExec => |d.files| > 0 && d.execFile != ""
    case HideStderrWithoutCommand => o.hideStderr && |o.args| == 0
    case NegativesAndRegexp => o.listNegatives && o.regexp != ""
    case VmstatWithFiles => o.vmstatOps.Some? && (d.execFile != "" || |d.files| > 0 || |o.args| > 0)
    case VmstatWithAbbreviation => o.vmstatOps.Some? && (o.listNegatives || o.regexp != "")
    case NoKey => KeyOps(o) && !env.keysReady
    case NegativeTimeout => o.ctimeout.Some? && o.ctimeout.value < 0
    case RootTmpNotRoot => o.userID != "" && o.rootWithExaTmp && o.userID != "root"
    case HostFileUnreadable(name) => d.hosts == Err(name)
    case SerialAndBatch => o.maxThds != 0 && o.serializeOps
    case BatchTooSmall => o.maxThds != 0 && o.maxThds < 1
    case NoHosts => d.hosts == Ok([])
    case BadFile(path) => d.badFile == Some(path)
    case DestWithoutFile => o.destfile != "" && d.execFile == "" && |d.files| == 0
  }

  /** The command lines main accepts: none of its tests fails. */
  predicate Accepted(o: Options, env: Environment, d: Derived)
  {
    (|o.args| > 0 || o.list || d.execFile != "" || |d.files| > 0 || KeyOps(o) || o.vmstatOps.Some?)
    && !(|o.args| > 0 && d.execFile != "")
    && !(|d.files| > 0 && d.execFile != "")
    && !(o.hideStderr && |o.args| == 0)
    && !(o.listNegatives && o.regexp != "")
    && (o.vmstatOps.Some? ==> d.execFile == "" && |d.files| == 0 && |o.args| == 0
                              && !o.listNegatives && o.regexp == "")
    && (KeyOps(o) ==> env.keysReady)
    && (o.ctimeout.Some? ==> o.ctimeout.value >= 0)
    && (o.userID != "" && o.rootWithExaTmp ==> o.userID == "root")
    && d.hosts.Ok? && |d.hosts.value| > 0
    && (o.maxThds != 0 ==> !o.serializeOps && o.maxThds >= 1)
    && d.badFile.None?
    && (o.destfile != "" ==> d.execFile != "" || |d.files| > 0)
  }

  /** The command sent to the hosts: the vmstat command when vmstat is asked for (the raw
      options behind "vmstat " when checkVmstat refuses them), else the one built from the
      arguments. */
  function Command(o: Options): Option<string>
  {
    match VmstatOptions(o)
    case Some(ops) =>
      (match Vmstat.PlanOf(ops)
       case Some(p) => Some(p.command)
       case None => Some("vmstat " + ops))
    case None => ArgsCommand(o)
  }

  /** The command built from the arguments, when there are any. */
  function ArgsCommand(o: Options): Option<string>
  {
    if |o.args| > 0 then
      Some(RemoteCommand.WithTimeout(o.timeout, "(" + RemoteCommand.CdPrefix(o.rootWithExaTmp)
                                             + RemoteCommand.Words(o.args) + ")"
                                             + RemoteCommand.Redirect(o.hideStderr)))
    else None
  }

  /** The vmstat repeat count, when vmstat is asked for and checkVmstat accepts its options. */
  function VmstatCount(o: Options): Option<int>
  {
    match VmstatOptions(o)
    case Some(ops) => if Vmstat.PlanOf(ops).Some? then Some(Vmstat.PlanOf(ops).value.repeat) else None
    case None => None
  }

  /** main's splitting of the -f values. */
  method SplitFiles(fileArgs: seq<string>) returns (files: seq<string>)
    ensures files == Files(fileArgs)
  {
    files := [];
    for i := 0 to |fileArgs|
      invariant files == Files(fileArgs[..i])
    {
      assert fileArgs[..i + 1][..i] == fileArgs[..i];
      files := files + SplitWs(fileArgs[i]);
    }
    assert fileArgs[..|fileArgs|] == fileArgs;
  }

  /** main's checkFile calls: the file to execute, then each file to copy; the first one
      refused is returned. */
  method CheckFiles(execFile: string, files: seq<string>, fileOk: (string, bool) -> bool)
    returns (bad: Option<string>)
    ensures bad == (if execFile != "" && !fileOk(execFile, true) then Some(execFile) else FirstBadCopy(files, fileOk))
  {
    if execFile != "" && !fileOk(execFile, true) {
      return Some(execFile);
    }
    var i := 0;
    while i < |files|
      invariant i <= |files|
      invariant FirstBadCopy(files, fileOk) == FirstBadCopy(files[i..], fileOk)
    {
      if !fileOk(files[i], false) {
        return Some(files[i]);
      }
      assert files[i..][1..] == files[i + 1..];
      i := i + 1;
    }
    return None;
  }

  /** Whether the test of rank `n` passes, each test stated on its own terms. */
  predicate ClearAt(o: Options, env: Environment, d: Derived, n: nat)
  {
    match n
    case 0 => !Violated(o, env, d, NoCommand)
    case 1 => !Violated(o, env, d, CommandAndExec)
    case 2 => !Violated(o, env, d, CopyAndExec)
    case 3 => !Violated(o, env, d, HideStderrWithoutCommand)
    case 4 => !Violated(o, env, d, NegativesAndRegexp)
    case 5 => !Violated(o, env, d, VmstatWithFiles)
    case 6 => !Violated(o, env, d, VmstatWithAbbreviation)
    case 7 => !Violated(o, env, d, NoKey)
    case 8 => !Violated(o, env, d, NegativeTimeout)
    case 9 => !Violated(o, env, d, RootTmpNotRoot)
    case 10 => d.hosts.Ok?
    case 11 => !Violated(o, env, d, SerialAndBatch)
    case 12 => !Violated(o, env, d, BatchTooSmall)
    case 13 => !Violated(o, env, d, NoHosts)
    case 14 => d.badFile.None?
    case 15 => !Violated(o, env, d, DestWithoutFile)
    case _ => true
  }

  /** Every test ranked below `n` passes. */
  predicate ClearBelow(o: Options, env: Environment, d: Derived, n: nat)
  {
    n == 0 || (ClearBelow(o, env, d, n - 1) && ClearAt(o, env, d, n - 1))
  }

  /** The refusal of rank `j`, for the ranks whose refusal carries no name. */
  function RefusalAt(j: nat): (k: Refusal)
    requires j < 16 && j != 10 && j != 14
    ensures Rank(k) == j
  {
    match j
    case 0 => NoCommand
    case 1 => CommandAndExec
    case 2 => CopyAndExec
    case 3 => HideStderrWithoutCommand
    case 4 => NegativesAndRegexp
    case 5 => VmstatWithFiles
    case 6 => VmstatWithAbbreviation
    case 7 => NoKey
    case 8 => NegativeTimeout
    case 9 => RootTmpNotRoot
    case 11 => SerialAndBatch
    case 12 => BatchTooSmall
    case 13 => NoHosts
    case _ => DestWithoutFile
  }

  /** The test of rank `n` passes exactly when no refusal of rank `n` applies. */
  lemma ClearAtMeans(o: Options, env: Environment, d: Derived, n: nat)
    ensures ClearAt(o, env, d, n) <==> forall k :: Rank(k) == n ==> !Violated(o, env, d, k)
  {
    if ClearAt(o, env, d, n) {
      forall k | Rank(k) == n ensures !Violated(o, env, d, k) {
        ClearAtExcludes(o, env, d, k);
      }
    } else {
      var k := FailedAt(o, env, d, n);
    }
  }

  /** A passing test rules out every refusal of its rank. */
  lemma ClearAtExcludes(o: Options, env: Environment, d: Derived, k: Refusal)
    requires ClearAt(o, env, d, Rank(k))
    ensures !Violated(o, env, d, k)
  {
  }

  /** A failing test has a refusal of its rank that applies. */
  lemma FailedAt(o: Options, env: Environment, d: Derived, n: nat) returns (k: Refusal)
    requires !ClearAt(o, env, d, n)
    ensures Rank(k) == n && Violated(o, env, d, k)
  {
    if n == 10 {
      k := HostFileUnreadable(d.hosts.error);
    } else if n == 14 {
      k := BadFile(d.badFile.value);
    } else {
      k := RefusalAt(n);
    }
  }

  /** The tests ranked below `n` pass exactly when no refusal ranked below `n` applies. */
  lemma {:induction false} ClearBelowMeans(o: Options, env: Environment, d: Derived, n: nat)
    ensures ClearBelow(o, env, d, n) <==> forall k :: Rank(k) < n ==> !Violated(o, env, d, k)
  {
    if n > 0 {
      ClearBelowMeans(o, env, d, n - 1);
      ClearAtMeans(o, env, d, n - 1);
    }
  }

  /** main accepts a command line exactly when none of its refusals applies. */
  lemma AcceptedIffNoRefusal(o: Options, env: Environment, d: Derived)
    ensures Accepted(o, env, d) <==> forall k :: !Violated(o, env, d, k)
  {
    if forall k :: !Violated(o, env, d, k) {
      assert !Violated(o, env, d, HostFileUnreadable(if d.hosts.Err? then d.hosts.error else ""));
      assert !Violated(o, env, d, BadFile(if d.badFile.Some? then d.badFile.value else ""));
      assert !Violated(o, env, d, NoCommand) && !Violated(o, env, d, CommandAndExec);
      assert !Violated(o, env, d, CopyAndExec) && !Violated(o, env, d, HideStderrWithoutCommand);
      assert !Violated(o, env, d, NegativesAndRegexp) && !Violated(o, env, d, VmstatWithFiles);
      assert !Violated(o, env, d, VmstatWithAbbreviation) && !Violated(o, env, d, NoKey);
      assert !Violated(o, env, d, NegativeTimeout) && !Violated(o, env, d, RootTmpNotRoot);
      assert !Violated(o, env, d, SerialAndBatch) && !Violated(o, env, d, BatchTooSmall);
      assert !Violated(o, env, d, NoHosts) && !Violated(o, env, d, DestWithoutFile);
    }
  }

  /** main's first tests (ranks 0 to 4): something is asked for, and no two requests clash. */
  method CheckRequest(o: Options, env: Environment, ghost d: Derived, files: seq<string>, execFile: string)
    returns (r: Result<Option<string>, Refusal>)
    requires files == d.files && execFile == d.execFile
    ensures r.Err? ==> Rank(r.error) < 5 && Violated(o, env, d, r.error) && ClearBelow(o, env, d, Rank(r.error))
    ensures r.Ok? ==> ClearBelow(o, env, d, 5) && r.value == ArgsCommand(o)
  {
    var command: Option<string> := None;
    if |o.args| > 0 {
      var built := RemoteCommand.BuildCommand(o.args, o.rootWithExaTmp, o.hideStderr, o.timeout);
      command := Some(built);
    }
    if command.None? && !(o.list || execFile != "" || |files| > 0 || o.pushKey || o.konepw || o.dropKey
                          || o.vmstatOps.Some?) {
      return Err(NoCommand);
    }
    assert !Violated(o, env, d, NoCommand);
    assert ClearAt(o, env, d, 0);
    assert ClearBelow(o, env, d, 1);
    if command.Some? && execFile != "" {
      return Err(CommandAndExec);
    }
    assert ClearBelow(o, env, d, 2);
    if |files| > 0 && execFile != "" {
      return Err(CopyAndExec);
    }
    assert ClearBelow(o, env, d, 3);
    if o.hideStderr && |o.args| == 0 {
      return Err(HideStderrWithoutCommand);
    }
    assert ClearBelow(o, env, d, 4);
    if o.listNegatives && o.regexp != "" {
      return Err(NegativesAndRegexp);
    }
    assert ClearBelow(o, env, d, 5);
    return Ok(command);
  }

  /** main's tests of --vmstat (ranks 5 and 6), and the command and repeat count it settles on. */
  method CheckVmstatRequest(o: Options, env: Environment, ghost d: Derived, files: seq<string>, execFile: string,
                            command0: Option<string>)
    returns (r: Result<(Option<string>, Option<int>), Refusal>)
    requires files == d.files && execFile == d.execFile && command0 == ArgsCommand(o) && ClearBelow(o, env, d, 5)
    ensures r.Err? ==> 5 <= Rank(r.error) < 7 && Violated(o, env, d, r.error) && ClearBelow(o, env, d, Rank(r.error))
    ensures r.Ok? ==> ClearBelow(o, env, d, 7) && r.value == (Command(o), VmstatCount(o))
  {
    var command := command0;
    var vmstatCount: Option<int> := None;
    var vmstatOps := o.vmstatOps;
    if vmstatOps == Some("") {
      vmstatOps := Some(" ");
    }
    if vmstatOps.Some? && vmstatOps.value != "" {
      if execFile != "" || |files| > 0 || command.Some? {
        return Err(VmstatWithFiles);
      }
      assert ClearBelow(o, env, d, 6);
      if o.listNegatives || o.regexp != "" {
        return Err(VmstatWithAbbreviation);
      }
      var plan := Vmstat.CheckVmstat(vmstatOps.value);
      if plan.Some? {
        vmstatCount, command := Some(plan.value.repeat), Some(plan.value.command);
      } else {
        command := Some("vmstat " + vmstatOps.value);
      }
    }
    assert ClearBelow(o, env, d, 6) && ClearBelow(o, env, d, 7);
    return Ok((command, vmstatCount));
  }

  /** main's tests of the session (ranks 7 to 9): a key for the key operations, the
      connect timeout and the user of --root-exadatatmp. */
  method CheckSession(o: Options, env: Environment, ghost d: Derived) returns (r: Option<Refusal>)
    requires ClearBelow(o, env, d, 7)
    ensures r.Some? ==> 7 <= Rank(r.value) < 10 && Violated(o, env, d, r.value) && ClearBelow(o, env, d, Rank(r.value))
    ensures r.None? ==> ClearBelow(o, env, d, 10)
  {
    if (o.pushKey || o.konepw || o.dropKey) && !env.keysReady {
      return Some(NoKey);
    }
    assert ClearBelow(o, env, d, 8);
    if o.ctimeout.Some? && o.ctimeout.value < 0 {
      return Some(NegativeTimeout);
    }
    assert ClearBelow(o, env, d, 9);
    if o.userID != "" && o.rootWithExaTmp && o.userID != "root" {
      return Some(RootTmpNotRoot);
    }
    assert ClearBelow(o, env, d, 10);
    return None;
  }

  /** main's tests of the hosts (ranks 10 to 13): the host list, the batch size and the
      automatic batch size derived from the open-file limit. */
  method CheckHosts(o: Options, env: Environment, ghost d: Derived, hosts: Result<seq<string>, string>)
    returns (r: Result<(seq<string>, bool, int), Refusal>)
    requires hosts == d.hosts
    requires ClearBelow(o, env, d, 10)
    ensures r.Err? ==> 10 <= Rank(r.error) < 14 && Violated(o, env, d, r.error) && ClearBelow(o, env, d, Rank(r.error))
    ensures r.Ok? ==> ClearBelow(o, env, d, 14) && d.hosts == Ok(r.value.0)
    ensures r.Ok? ==> var (updated, m) := Batches.UpdateMaxThreads(o.maxThds, o.serializeOps, env.fdLimit);
      var auto := |r.value.0| > 1 && updated;
      (r.value.1 <==> o.maxThds != 0 || auto) && r.value.2 == (if auto then m else o.maxThds)
  {
    if hosts.Err? {
      return Err(HostFileUnreadable(hosts.error));
    }
    assert ClearBelow(o, env, d, 11);
    var clist := hosts.value;
    var batch := false;
    var maxThds := o.maxThds;
    if maxThds != 0 {
      if o.serializeOps {
        return Err(SerialAndBatch);
      }
      if maxThds < 1 {
        return Err(BatchTooSmall);
      }
      batch := true;
    }
    assert ClearBelow(o, env, d, 12) && ClearBelow(o, env, d, 13);
    if |clist| > 1 {
      var (updated, m) := Batches.UpdateMaxThreads(maxThds, o.serializeOps, env.fdLimit);
      if updated {
        batch, maxThds := true, m;
      }
    }
    if |clist| == 0 {
      return Err(NoHosts);
    }
    assert ClearBelow(o, env, d, 14);
    return Ok((clist, batch, maxThds));
  }

  /** main's last tests (ranks 14 and 15): the files to execute and copy, and a destination
      only with a file. */
  method CheckPaths(o: Options, env: Environment, ghost d: Derived, files: seq<string>, execFile: string)
    returns (r: Option<Refusal>)
    requires files == d.files && execFile == d.execFile
    requires d.badFile == (if execFile != "" && !env.fileOk(execFile, true) then Some(execFile)
                           else FirstBadCopy(files, env.fileOk))
    requires ClearBelow(o, env, d, 14)
    ensures r.Some? ==> 14 <= Rank(r.value) < 16 && Violated(o, env, d, r.value) && ClearBelow(o, env, d, Rank(r.value))
    ensures r.None? ==> ClearBelow(o, env, d, 16)
  {
    var bad := CheckFiles(execFile, files, env.fileOk);
    assert bad == d.badFile;
    if bad.Some? {
      return Some(BadFile(bad.value));
    }
    assert ClearBelow(o, env, d, 15);
    if o.destfile != "" && !(execFile != "" || |files| > 0) {
      return Some(DestWithoutFile);
    }
    assert ClearBelow(o, env, d, 16);
    return None;
  }

  /** main's tests in order, on what it derives from the options: the first refusal, or
      what the tests settle. */
  method CheckAll(o: Options, env: Environment, ghost d: Derived, files: seq<string>, execFile: string)
    returns (r: Result<Plan, Refusal>)
    requires files == d.files && execFile == d.execFile && d.hosts == Hosts(o, env)
    requires d.badFile == (if execFile != "" && !env.fileOk(execFile, true) then Some(execFile)
                           else FirstBadCopy(files, env.fileOk))
    ensures r.Err? ==> Violated(o, env, d, r.error) && ClearBelow(o, env, d, Rank(r.error))
    ensures r.Ok? ==> ClearBelow(o, env, d, 16)
    ensures r.Ok? ==> r.value.command == Command(o) && r.value.vmstatCount == VmstatCount(o)
    ensures r.Ok? ==> d.hosts == Ok(r.value.clist)
    ensures r.Ok? ==> var (updated, m) := Batches.UpdateMaxThreads(o.maxThds, o.serializeOps, env.fdLimit);
      var auto := |r.value.clist| > 1 && updated;
      (r.value.batch <==> o.maxThds != 0 || auto) && r.value.maxThds == (if auto then m else o.maxThds)
  {
    var asked := CheckRequest(o, env, d, files, execFile);
    if asked.Err? {
      return Err(asked.error);
    }
    var request := CheckVmstatRequest(o, env, d, files, execFile, asked.value);
    if request.Err? {
      return Err(request.error);
    }
    var session := CheckSession(o, env, d);
    if session.Some? {
      return Err(session.value);
    }
    var cells := HostList.BuildCellList(o.cells, o.groupfile, env.groupLines);
    assert cells == Hosts(o, env);
    var hosts := CheckHosts(o, env, d, cells);
    if hosts.Err? {
      return Err(hosts.error);
    }
    var paths := CheckPaths(o, env, d, files, execFile);
    if paths.Some? {
      return Err(paths.value);
    }
    var (command, vmstatCount) := request.value;
    var (clist, batch, maxThds) := hosts.value;
    return Ok(Plan(command, vmstatCount, clist, batch, maxThds));
  }

  /** main's validation of the command line: the first refusal in main's order, or what the
      checks settle. */
  method Validate(o: Options, env: Environment) returns (r: Result<Plan, Refusal>)
    ensures var d := Derive(o, env);
      && (r.Ok? <==> Accepted(o, env, d))
      && (r.Err? ==> Violated(o, env, d, r.error))
      && (r.Err? ==> forall k :: Rank(k) < Rank(r.error) ==> !Violated(o, env, d, k))
    ensures r.Ok? ==> r.value.command == Command(o) && r.value.vmstatCount == VmstatCount(o)
    ensures r.Ok? ==> Hosts(o, env) == Ok(r.value.clist)
    ensures r.Ok? ==> var (updated, m) := Batches.UpdateMaxThreads(o.maxThds, o.serializeOps, env.fdLimit);
      var auto := |r.value.clist| > 1 && updated;
      (r.value.batch <==> o.maxThds != 0 || auto) && r.value.maxThds == (if auto then m else o.maxThds)
  {
    ghost var d := Derive(o, env);
    var files := SplitFiles(o.fileArgs);
    var execFile := Strip(o.execArg);
    r := CheckAll(o, env, d, files, execFile);
    AcceptedIffNoRefusal(o, env, d);
    if r.Err? {
      ClearBelowMeans(o, env, d, Rank(r.error));
    } else {
      ClearBelowMeans(o, env, d, 16);
    }
  }
}
