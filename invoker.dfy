/** One host's work (dcli's WorkThread): the stages it runs over ssh and scp, how each run's
    outcome is classified (runCommand), and how the stages' statuses and outputs combine. */
module Invoker {
  import opened Text
  import opened Wrappers
  import opened OutputBuffer
  import opened SshOptions
  import RemoteCommand

  const Ssh: string := "/usr/bin/ssh"
  const Scp: string := "/usr/bin/scp"
  const BannerMarker: string := "******BANNER******"

  /** The stages of one host, in the order they run. */
  datatype Stage = KeyPush | MakeDir | Copy | Command | DropKey

  function Rank(s: Stage): nat
  {
    match s
    case KeyPush => 0
    case MakeDir => 1
    case Copy => 2
    case Command => 3
    case DropKey => 4
  }

  /** One ssh/scp invocation: the command line, the lines written to its standard input, and
      whether its output is read in chunk mode (`serialize` as passed to runCommand). */
  datatype StageCall = StageCall(stage: Stage, command: string, input: seq<string>, serialize: bool)

  /** What running one invocation gave: whether the process could be started (read only on the
      -k terminal pass-through path), its exit code and pid, its standard output lines, and
      what it wrote to standard error (the banner, or ssh's own error text). */
  datatype Execution = Execution(launched: bool, returncode: int, pid: int, stdout: seq<string>, stderr: seq<string>)

  /** What a run asks to be recorded about the host: nothing, the unreachable list (appended
      unconditionally, or only when not yet listed), or the offending-key retry list. */
  datatype Mark = NoMark | Unreachable | UnreachableOnce | Retry

  /** runCommand's result: the status, the lines it returns, the chunks it displayed while
      reading, and the list the host goes on. */
  datatype RunOutcome = RunOutcome(status: int, lines: seq<string>, shown: seq<seq<string>>, mark: Mark)

  /** Everything WorkThread.run reads from copyAndExecute's scope. */
  datatype HostConfig = HostConfig(
    settings: Settings,
    dropKey: bool,
    sshKeys: seq<string>,      // the public keys found by checkKeys, at most two
    encodedPassword: string,   // the base64 form of the --key-with-one-password password
    sshOptions: string,
    scpOptions: string,
    connectTimeout: int,
    execFile: string,
    files: seq<string>,        // what scp copies: the -f files, then the exec file
    destfile: string,
    destname: string,
    command: string,           // the quoted command or the exec wrapper; "" for a copy only
    showBanner: bool,
    maxLines: int,
    batchSize: nat)            // the number of hosts in the current batch

  function OpStringOf(cfg: HostConfig): string
  {
    OpString(cfg.sshOptions, cfg.settings.batchmode, cfg.settings.strictHostKeyChecking, cfg.connectTimeout)
  }

  function SshUser(user: string): string
  {
    if user != "" then "-l " + user + " " else ""
  }

  /** scp's target host: `user@`, then the host, in brackets when it is an IPv6 address and
      files are copied. */
  function ScpHost(cell: string, user: string, isIPv6: bool, copying: bool): (h: string)
    ensures user != "" ==> StartsWith(h, user + "@")
    ensures EndsWith(h, if copying && isIPv6 then "[" + cell + "]" else cell)
  {
    var host := if copying && isIPv6 then "[" + cell + "]" else cell;
    var h := (if user != "" then user + "@" else "") + host;
    assert h[|h| - |host|..] == host;
    assert user != "" ==> h[..|user + "@"|] == user + "@";
    h
  }

  /** The grep pattern that finds the first key, or either of the two. */
  function KeyPattern(sshKeys: seq<string>): string
    requires |sshKeys| >= 1
  {
    sshKeys[0] + (if |sshKeys| > 1 then "\\|" + sshKeys[1] else "")
  }

  /** The remote script of the key push: add the first key to authorized_keys unless one of
      the keys is there already. */
  function KeyPushScript(sshKeys: seq<string>): string
    requires |sshKeys| >= 1
  {
    // the literal is kept in short pieces, which the verifier handles far more cheaply
    " \" cd; " + "mkdir -pm 700 .ssh; " + "if grep '^\\s*" + KeyPattern(sshKeys)
      + "' .ssh/" + "authorized_keys " + " > /dev/null 2>&1 ; " + "then echo " + "ssh key already exists ; "
      + "elif echo '" + sshKeys[0] + "' >> .ssh/" + "authorized_keys ; " + "then chmod 644 " + ".ssh/"
      + "authorized_keys ;" + " echo ssh key added ; " + "fi \""
  }

  function KeyPushCommand(opString: string, sshUser: string, cell: string, sshKeys: seq<string>): string
    requires |sshKeys| >= 1
  {
    "ssh " + opString + sshUser + cell + KeyPushScript(sshKeys)
  }

  /** The expect script that answers the password prompt with --key-with-one-password. */
  function ExpectScript(sshCommand: string, encodedPassword: string): seq<string>
  {
    ["spawn -noecho " + sshCommand,
     "expect {",
     "\"Permission denied*\" { exit 255 }",
     "*password: {",
     "set encoded_pw {" + encodedPassword + "}",
     "set decoded_pw [exec printf %s $encoded_pw | base64 -d]",
     "send -- \"$decoded_pw\\n\"",
     "exp_continue }",
     "*yes/no*)? {send yes\\n",
     "exp_continue }",
     "}"]
  }

  /** The remote script of the unkey stage: remove every line holding one of the keys from
      authorized_keys, keeping a copy until the edit succeeds. */
  function DropKeyScript(sshKeys: seq<string>): string
    requires |sshKeys| >= 1
  {
    // the literal is kept in short pieces, which the verifier handles far more cheaply
    " \" if ! grep '^\\s*" + KeyPattern(sshKeys)
      + "' .ssh/" + "authorized_keys" + " > /dev/null 2>&1 ; " + "then echo " + "ssh key did not exist ; "
      + "elif " + "cp -f .ssh/" + "authorized_keys " + ".ssh/" + "authorized_keys__;"
      + "sed -i''  " + "--follow-symlinks " + "'\\%^\\s*" + KeyPattern(sshKeys) + "%d' .ssh/" + "authorized_keys ; "
      + "then " + " rm -f .ssh/" + "authorized_keys__;" + "echo ssh key dropped ; " + "fi \""
  }

  function DropKeyCommand(opString: string, sshUser: string, cell: string, sshKeys: seq<string>): string
    requires |sshKeys| >= 1
  {
    "ssh " + opString + sshUser + cell + DropKeyScript(sshKeys)
  }

  /** The key-push invocation: plain ssh with an empty input, or, with a single password for
      all hosts, `expect` fed the script that drives ssh. Always read in chunk mode. */
  function KeyPushCall(cfg: HostConfig, cell: string): StageCall
    requires |cfg.sshKeys| >= 1
  {
    var ssh := KeyPushCommand(OpStringOf(cfg), SshUser(cfg.settings.user), cell, cfg.sshKeys);
    if cfg.settings.konepw then StageCall(KeyPush, "expect", ExpectScript(ssh, cfg.encodedPassword), true)
    else StageCall(KeyPush, ssh, [], true)
  }

  function MakeDirCall(cfg: HostConfig, cell: string): StageCall
  {
    StageCall(MakeDir, Ssh + OpStringOf(cfg) + SshUser(cfg.settings.user) + cell + " " + " 'mkdir -p " + cfg.destfile + "'",
              [], cfg.settings.serialize)
  }

  function CopyCall(cfg: HostConfig, cell: string, isIPv6: bool): StageCall
  {
    var scpOpString := ScpOpString(cfg.scpOptions, OpStringOf(cfg), cfg.execFile);
    StageCall(Copy, Scp + scpOpString + RemoteCommand.Words(cfg.files) + " "
                    + ScpHost(cell, cfg.settings.user, isIPv6, |cfg.files| > 0) + ":" + cfg.destname,
              [], cfg.settings.serialize)
  }

  function CommandCall(cfg: HostConfig, cell: string): StageCall
  {
    StageCall(Command, Ssh + OpStringOf(cfg) + SshUser(cfg.settings.user) + cell + " " + cfg.command,
              [], cfg.settings.serialize)
  }

  function DropKeyCall(cfg: HostConfig, cell: string): StageCall
    requires |cfg.sshKeys| >= 1
  {
    StageCall(DropKey, DropKeyCommand(OpStringOf(cfg), SshUser(cfg.settings.user), cell, cfg.sshKeys),
              [], cfg.settings.serialize)
  }

  /** The ssh target every ssh stage starts with: the program, the option string, the user
      and the host. */
  function SshTarget(cfg: HostConfig, cell: string): string
  {
    Ssh + OpStringOf(cfg) + SshUser(cfg.settings.user) + cell + " "
  }

  /** The key push runs ssh on the host with the option string, fed through expect with the
      one password (the spawned command first, the encoded password in the script), or
      directly and with no input otherwise. */
  lemma KeyPushCallShape(cfg: HostConfig, cell: string)
    requires |cfg.sshKeys| >= 1
    ensures var c := KeyPushCall(cfg, cell);
      var ssh := KeyPushCommand(OpStringOf(cfg), SshUser(cfg.settings.user), cell, cfg.sshKeys);
      StartsWith(ssh, "ssh " + OpStringOf(cfg) + SshUser(cfg.settings.user) + cell)
      && EndsWith(ssh, KeyPushScript(cfg.sshKeys))
      && c.stage == KeyPush && c.serialize
      && (cfg.settings.konepw ==>
            c.command == "expect" && |c.input| == 11 && c.input[0] == "spawn -noecho " + ssh
            && c.input[4] == "set encoded_pw {" + cfg.encodedPassword + "}")
      && (!cfg.settings.konepw ==> c.command == ssh && c.input == [])
  {
    Affixes("ssh " + OpStringOf(cfg) + SshUser(cfg.settings.user) + cell, KeyPushScript(cfg.sshKeys));
  }

  /** The directory stage runs `mkdir -p` of the destination over ssh on the host. */
  lemma MakeDirCallShape(cfg: HostConfig, cell: string)
    ensures var c := MakeDirCall(cfg, cell);
      StartsWith(c.command, SshTarget(cfg, cell)) && EndsWith(c.command, " 'mkdir -p " + cfg.destfile + "'")
      && c.stage == MakeDir && c.input == [] && c.serialize == cfg.settings.serialize
  {
    var t := SshTarget(cfg, cell);
    var m := " 'mkdir -p ";
    assert MakeDirCall(cfg, cell).command == t + (m + cfg.destfile + "'") by {
      ConcatAssoc(t, m, cfg.destfile);
      ConcatAssoc(t, m + cfg.destfile, "'");
    }
    Affixes(t, m + cfg.destfile + "'");
  }

  /** The copy stage runs scp with the scp option string and the files, to the destination
      on the scp host. */
  lemma CopyCallShape(cfg: HostConfig, cell: string, isIPv6: bool)
    ensures var c := CopyCall(cfg, cell, isIPv6);
      var host := ScpHost(cell, cfg.settings.user, isIPv6, |cfg.files| > 0);
      StartsWith(c.command, Scp + ScpOpString(cfg.scpOptions, OpStringOf(cfg), cfg.execFile) + RemoteCommand.Words(cfg.files) + " ")
      && EndsWith(c.command, host + ":" + cfg.destname)
      && c.stage == Copy && c.input == [] && c.serialize == cfg.settings.serialize
  {
    var p := Scp + ScpOpString(cfg.scpOptions, OpStringOf(cfg), cfg.execFile) + RemoteCommand.Words(cfg.files) + " ";
    var host := ScpHost(cell, cfg.settings.user, isIPv6, |cfg.files| > 0);
    assert CopyCall(cfg, cell, isIPv6).command == p + (host + ":" + cfg.destname) by {
      ConcatAssoc(p, host, ":");
      ConcatAssoc(p, host + ":", cfg.destname);
    }
    Affixes(p, host + ":" + cfg.destname);
  }

  /** The command stage runs the command over ssh on the host. */
  lemma CommandCallShape(cfg: HostConfig, cell: string)
    ensures var c := CommandCall(cfg, cell);
      StartsWith(c.command, SshTarget(cfg, cell)) && EndsWith(c.command, cfg.command)
      && c.stage == Command && c.input == [] && c.serialize == cfg.settings.serialize
  {
    Affixes(SshTarget(cfg, cell), cfg.command);
  }

  /** The unkey stage runs ssh on the host with the option string, with no input. */
  lemma DropKeyCallShape(cfg: HostConfig, cell: string)
    requires |cfg.sshKeys| >= 1
    ensures var c := DropKeyCall(cfg, cell);
      StartsWith(c.command, "ssh " + OpStringOf(cfg) + SshUser(cfg.settings.user) + cell)
      && EndsWith(c.command, DropKeyScript(cfg.sshKeys))
      && c.stage == DropKey && c.input == [] && c.serialize == cfg.settings.serialize
  {
    Affixes("ssh " + OpStringOf(cfg) + SshUser(cfg.settings.user) + cell, DropKeyScript(cfg.sshKeys));
  }

  const AllStages: seq<Stage> := [KeyPush, MakeDir, Copy, Command, DropKey]

  /** Whether the host's options ask for a stage. */
  predicate Wanted(cfg: HostConfig, s: Stage)
  {
    match s
    case KeyPush => |cfg.sshKeys| > 0 && cfg.settings.pushKey
    case MakeDir => cfg.destfile != "" && EndsWith(cfg.destfile, "/")
    case Copy => |cfg.files| > 0
    case Command => cfg.command != ""
    case DropKey => |cfg.sshKeys| > 0 && cfg.dropKey
  }

  /** The stages of `stages` the options ask for, order kept. */
  function Keep(cfg: HostConfig, stages: seq<Stage>): seq<Stage>
  {
    if |stages| == 0 then []
    else (if Wanted(cfg, stages[0]) then [stages[0]] else []) + Keep(cfg, stages[1..])
  }

  /** The stages the host runs, in the order WorkThread.run tries them. */
  function Planned(cfg: HostConfig): seq<Stage>
  {
    Keep(cfg, AllStages)
  }

  predicate InRankOrder(stages: seq<Stage>)
  {
    forall i, j :: 0 <= i < j < |stages| ==> Rank(stages[i]) < Rank(stages[j])
  }

  /** Keeping stages keeps their order and drops exactly the unwanted ones. */
  lemma {:induction false} KeepInOrder(cfg: HostConfig, stages: seq<Stage>)
    requires InRankOrder(stages)
    ensures InRankOrder(Keep(cfg, stages))
    ensures forall s :: s in Keep(cfg, stages) <==> s in stages && Wanted(cfg, s)
  {
    if |stages| != 0 {
      var rest := stages[1..];
      KeepInOrder(cfg, rest);
      var k := Keep(cfg, rest);
      forall s | s in k ensures Rank(stages[0]) < Rank(s) {
        var j :| 0 <= j < |rest| && rest[j] == s;
        assert stages[j + 1] == s;
      }
    }
  }

  /** Stages keep their fixed order, each present exactly when its option asks for it. */
  lemma PlannedInOrder(cfg: HostConfig)
    ensures InRankOrder(Planned(cfg))
    ensures forall s :: s in Planned(cfg) <==> Wanted(cfg, s)
  {
    KeepInOrder(cfg, AllStages);
    forall s ensures s in AllStages {
      match s
      case KeyPush => assert AllStages[0] == s;
      case MakeDir => assert AllStages[1] == s;
      case Copy => assert AllStages[2] == s;
      case Command => assert AllStages[3] == s;
      case DropKey => assert AllStages[4] == s;
    }
  }

  /** The invocation for one wanted stage. */
  function CallFor(cfg: HostConfig, cell: string, isIPv6: bool, s: Stage): (c: StageCall)
    requires Wanted(cfg, s)
    ensures c.stage == s
    ensures s == KeyPush ==> c.serialize
    ensures s != KeyPush ==> c.input == [] && c.serialize == cfg.settings.serialize
  {
    match s
    case KeyPush => KeyPushCall(cfg, cell)
    case MakeDir => MakeDirCall(cfg, cell)
    case Copy => CopyCall(cfg, cell, isIPv6)
    case Command => CommandCall(cfg, cell)
    case DropKey => DropKeyCall(cfg, cell)
  }

  /** The invocations of the host's planned stages, in order. */
  function Calls(cfg: HostConfig, cell: string, isIPv6: bool): (calls: seq<StageCall>)
    ensures |calls| == |Planned(cfg)|
    ensures forall j :: 0 <= j < |calls| ==> calls[j].stage == Planned(cfg)[j]
  {
    var plan := Planned(cfg);
    PlannedInOrder(cfg);
    seq(|plan|, j requires 0 <= j < |plan| => CallFor(cfg, cell, isIPv6, plan[j]))
  }

  /** The -k pass-through path: ssh talks to the terminal, nothing is captured; a failure, or a
      process that could not be started (status 1), puts the host on the unreachable list
      unless it is there already. */
  function Passthrough(e: Execution): (o: RunOutcome)
    ensures o.lines == [] && o.shown == []
    ensures o.status == 0 <==> e.launched && e.returncode == 0
    ensures e.launched ==> o.status == e.returncode
    ensures o.mark == NoMark || o.mark == UnreachableOnce
    ensures o.mark == UnreachableOnce <==> o.status != 0
  {
    var status := if e.launched then e.returncode else 1;
    RunOutcome(status, [], [], if status != 0 then UnreachableOnce else NoMark)
  }

  predicate HasOffendingKey(lines: seq<string>)
  {
    AnyContains(lines, "Offending key") || AnyContains(lines, "Offending ECDSA key")
  }

  /** retry_if_needed: only with --key-with-one-password, and only when ssh warned about an
      offending host key in its error text or in the output lines. */
  predicate RetryIfNeeded(konepw: bool, bannerOrErr: seq<string>, stdout: seq<string>)
  {
    konepw && (HasOffendingKey(bannerOrErr) || HasOffendingKey(stdout))
  }

  function TimeoutLine(pid: int, cell: string): string
  {
    "Timeout expired for pid " + IntToString(pid) + " to " + cell + "...\n"
  }

  /** readLinesWithBanner: the output framed by the banner between two marker lines. */
  function WithBanner(lines: seq<string>, banner: seq<string>): (r: seq<string>)
    ensures |r| == |banner| + 2 + |lines|
    ensures r[0] == BannerMarker && r[|banner| + 1] == BannerMarker
    ensures r[1..|banner| + 1] == banner && r[|banner| + 2..] == lines
  {
    [BannerMarker] + banner + [BannerMarker] + lines
  }

  /** The index of the first marker line at or after `i`, or `|r|` when there is none. */
  function MarkerFrom(r: seq<string>, i: nat): (k: nat)
    requires i <= |r|
    ensures i <= k <= |r| && (k < |r| ==> r[k] == BannerMarker)
    ensures forall j :: i <= j < k ==> r[j] != BannerMarker
    decreases |r| - i
  {
    if i == |r| then |r| else if r[i] == BannerMarker then i else MarkerFrom(r, i + 1)
  }

  /** Reading framed output back: the lines between the first two markers are the banner,
      the lines after the second marker the output. */
  function Unframe(r: seq<string>): Option<(seq<string>, seq<string>)>
  {
    if |r| == 0 || r[0] != BannerMarker then None
    else
      var k := MarkerFrom(r, 1);
      if k == |r| then None else Some((r[1..k], r[k + 1..]))
  }

  /** A banner without a marker line of its own is framed so that the banner and the output
      can be told apart again. */
  lemma BannerRoundTrip(lines: seq<string>, banner: seq<string>)
    requires BannerMarker !in banner
    ensures Unframe(WithBanner(lines, banner)) == Some((banner, lines))
  {
    var r := WithBanner(lines, banner);
    assert r[|banner| + 1] == BannerMarker;
    assert forall j :: 1 <= j < |banner| + 1 ==> r[j] == banner[j - 1];
  }

  /** The captured path of runCommand: read the output through the buffer, classify the exit,
      frame the output with the banner, and force status 1 on truncation. */
  function Captured(cell: string, e: Execution, maxLines: int, chunkMode: bool, konepw: bool,
                    command: string, showBanner: bool): RunOutcome
  {
    var b := Buffer(e.stdout, maxLines, chunkMode);
    var l := if e.returncode == 124 then b.rest + [TimeoutLine(e.pid, cell)] else b.rest;
    var mark :=
      if e.returncode == 124 then NoMark
      else if RetryIfNeeded(konepw, e.stderr, b.rest) then Retry
      else if e.returncode == 255 then Unreachable
      else NoMark;
    var framed := if command != "" && e.returncode != 255 && showBanner then WithBanner(l, e.stderr) else l;
    RunOutcome(if b.truncated then 1 else e.returncode, framed, b.shown, mark)
  }

  /** runCommand for one stage call: the pass-through path when keys are pushed with -k and
      nothing is fed to the process, the captured path otherwise. */
  function RunStage(cfg: HostConfig, cell: string, call: StageCall, e: Execution): RunOutcome
  {
    if cfg.settings.pushKey && !cfg.settings.konepw && |call.input| == 0 then Passthrough(e)
    else Captured(cell, e, cfg.maxLines, call.serialize || cfg.batchSize == 1, cfg.settings.konepw,
                  cfg.command, cfg.showBanner)
  }

  /** The classification is exclusive and ordered: a timeout (exit 124) appends the timeout line;
      otherwise an offending-key warning under --key-with-one-password asks for a retry, even on
      exit 255; otherwise exit 255 marks the host unreachable. A truncated output forces status 1. */
  lemma CapturedClassification(cell: string, e: Execution, maxLines: int, chunkMode: bool, konepw: bool,
                               command: string, showBanner: bool)
    ensures var o := Captured(cell, e, maxLines, chunkMode, konepw, command, showBanner);
      var b := Buffer(e.stdout, maxLines, chunkMode);
      (e.returncode == 124 ==> o.mark == NoMark && |o.lines| > 0 && o.lines[|o.lines| - 1] == TimeoutLine(e.pid, cell))
      && (o.mark == Retry <==> e.returncode != 124 && RetryIfNeeded(konepw, e.stderr, b.rest))
      && (o.mark == Unreachable <==> e.returncode == 255 && !RetryIfNeeded(konepw, e.stderr, b.rest))
      && o.mark != UnreachableOnce
      && o.status == (if b.truncated then 1 else e.returncode)
      && o.shown == b.shown
  {
  }

  /** Without a retry flag, an ssh failure with exit 255 is never a retry. */
  lemma NoRetryWithoutOnePassword(cell: string, e: Execution, maxLines: int, chunkMode: bool,
                                  command: string, showBanner: bool)
    ensures Captured(cell, e, maxLines, chunkMode, false, command, showBanner).mark
      == (if e.returncode == 255 then Unreachable else NoMark)
  {
  }

  /** runCommand's two routes: only the -k pass-through (no expect input, no one-password
      option) captures nothing and lists a failing host as unreachable once; a retry is only
      ever asked for under --key-with-one-password. */
  lemma RunStageRoutes(cfg: HostConfig, cell: string, call: StageCall, e: Execution)
    ensures var o := RunStage(cfg, cell, call, e);
      var direct := cfg.settings.pushKey && !cfg.settings.konepw && |call.input| == 0;
      (direct ==> o.lines == [] && o.shown == [] && (o.status == 0 <==> e.launched && e.returncode == 0))
      && (o.mark == UnreachableOnce <==> direct && o.status != 0)
      && (o.mark == Retry ==> cfg.settings.konepw)
  {
    var o := RunStage(cfg, cell, call, e);
    if !(cfg.settings.pushKey && !cfg.settings.konepw && |call.input| == 0) {
      var chunk := call.serialize || cfg.batchSize == 1;
      CapturedClassification(cell, e, cfg.maxLines, chunk, cfg.settings.konepw, cfg.command, cfg.showBanner);
      if !cfg.settings.konepw {
        NoRetryWithoutOnePassword(cell, e, cfg.maxLines, chunk, cfg.command, cfg.showBanner);
      }
    }
  }

  /** The captured lines are the buffer's remainder, then the timeout line, framed by the banner
      when it is shown: so in chunk mode the shown chunks and the returned lines hold every
      output line, in order. */
  lemma CapturedKeepsOutput(cell: string, e: Execution, maxLines: int, konepw: bool,
                            command: string, showBanner: bool)
    ensures var o := Captured(cell, e, maxLines, true, konepw, command, showBanner);
      var tail := if e.returncode == 124 then [TimeoutLine(e.pid, cell)] else [];
      var core := if command != "" && e.returncode != 255 && showBanner then o.lines[|e.stderr| + 2..] else o.lines;
      Flatten(o.shown) + core == e.stdout + tail
  {
    ChunkModeKeepsEveryLine(e.stdout, maxLines);
    var b := Buffer(e.stdout, maxLines, true);
    assert Flatten(b.shown) + (b.rest + (if e.returncode == 124 then [TimeoutLine(e.pid, cell)] else []))
        == (Flatten(b.shown) + b.rest) + (if e.returncode == 124 then [TimeoutLine(e.pid, cell)] else []);
  }

  /** What a host's run produced: its status, its captured lines, the chunks shown while
      reading, and one mark per stage that ran. */
  datatype HostRun = HostRun(status: int, output: seq<string>, shown: seq<seq<string>>, marks: seq<Mark>)

  /** The stage pipeline as a fold over a way `run` of running one call: each call runs only
      while every earlier one returned 0. */
  function Pipeline(calls: seq<StageCall>, run: StageCall -> RunOutcome): HostRun
  {
    if |calls| == 0 then HostRun(0, [], [], [])
    else
      var h := Pipeline(calls[..|calls| - 1], run);
      if h.status != 0 then h
      else
        var o := run(calls[|calls| - 1]);
        HostRun(o.status, h.output + o.lines, h.shown + o.shown, h.marks + [o.mark])
  }

  /** One host's pipeline: each call runs through runCommand. */
  function RunAll(cfg: HostConfig, cell: string, calls: seq<StageCall>, exec: (string, StageCall) -> Execution): HostRun
  {
    Pipeline(calls, c => RunStage(cfg, cell, c, exec(cell, c)))
  }

  /** The lines of the calls' outcomes, concatenated. */
  function OutputsOf(calls: seq<StageCall>, run: StageCall -> RunOutcome): seq<string>
  {
    if |calls| == 0 then []
    else OutputsOf(calls[..|calls| - 1], run) + run(calls[|calls| - 1]).lines
  }

  /** The pipeline short-circuits: exactly a prefix of the calls ran; every one before the last
      that ran returned 0; the host's status is the last one's (0 when none ran, and nonzero
      when the pipeline stopped early); its output is the concatenation of what they returned. */
  lemma {:induction false} PipelineRanPrefix(calls: seq<StageCall>, run: StageCall -> RunOutcome)
    ensures var h := Pipeline(calls, run);
      var n := |h.marks|;
      n <= |calls|
      && (forall j :: 0 <= j < n ==> h.marks[j] == run(calls[j]).mark)
      && (forall j :: 0 <= j < n - 1 ==> run(calls[j]).status == 0)
      && h.status == (if n == 0 then 0 else run(calls[n - 1]).status)
      && (n < |calls| ==> h.status != 0)
      && h.output == OutputsOf(calls[..n], run)
  {
    if |calls| != 0 {
      var p := calls[..|calls| - 1];
      PipelineRanPrefix(p, run);
      var h := Pipeline(p, run);
      var n := |h.marks|;
      assert calls[..n] == p[..n];
      if h.status == 0 {
        assert n == |p|;
        assert calls[..n + 1][..n] == p;
        assert calls[..n + 1] == calls;
      }
    }
  }

  /** WorkThread.run over a list of calls: run them in order, each only while the status so
      far is 0, collecting the status and the output. */
  method RunCalls(cfg: HostConfig, cell: string, calls: seq<StageCall>, exec: (string, StageCall) -> Execution) returns (h: HostRun)
    ensures h == RunAll(cfg, cell, calls, exec)
  {
    var childStatus := 0;
    var childOutput: seq<string> := [];
    var shown: seq<seq<string>> := [];
    var marks: seq<Mark> := [];
    var i := 0;
    while i < |calls|
      invariant 0 <= i <= |calls|
      invariant HostRun(childStatus, childOutput, shown, marks) == RunAll(cfg, cell, calls[..i], exec)
    {
      assert calls[..i + 1][..i] == calls[..i];
      if childStatus == 0 {
        var o := RunStage(cfg, cell, calls[i], exec(cell, calls[i]));
        childStatus := o.status;
        childOutput := childOutput + o.lines;
        shown := shown + o.shown;
        marks := marks + [o.mark];
      }
      i := i + 1;
    }
    assert calls[..i] == calls;
    h := HostRun(childStatus, childOutput, shown, marks);
  }

  /** WorkThread.run for one host. */
  method Run(cfg: HostConfig, cell: string, isIPv6: bool, exec: (string, StageCall) -> Execution) returns (h: HostRun)
    ensures h == RunAll(cfg, cell, Calls(cfg, cell, isIPv6), exec)
  {
    h := RunCalls(cfg, cell, Calls(cfg, cell, isIPv6), exec);
  }
}
