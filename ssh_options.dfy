/** The per-run settings dcli derives from its options, and the option strings it passes
    to every ssh and scp invocation. */
module SshOptions {
  import opened Text

  const DefaultConnectionTimeout: nat := 5
  const DefaultUser: string := "celladmin"
  const ConnectTimeoutOption: string := "-o ConnectTimeout="
  const ServerAliveIntervalOption: string := "-o ServerAliveInterval=60"
  const ServerAliveCountMaxOption: string := "-o ServerAliveCountMax=5"

  /** The remote user: -l if given, else `root` with --root-exadatatmp, else celladmin. */
  function RemoteUser(userID: string, rootWithExaTmp: bool): (u: string)
    ensures u != ""
    ensures userID != "" ==> u == userID
    ensures userID == "" && rootWithExaTmp ==> u == "root"
    ensures userID == "" && !rootWithExaTmp ==> u == DefaultUser
  {
    if userID != "" then userID else if rootWithExaTmp then "root" else DefaultUser
  }

  /** What copyAndExecute derives from the options before it starts any host. */
  datatype Settings = Settings(
    user: string,
    pushKey: bool,          // -k or --key-with-one-password
    konepw: bool,           // --key-with-one-password
    batchmode: bool,        // ssh may not prompt
    strictHostKeyChecking: bool,
    serialize: bool)        // hosts one at a time

  function DeriveSettings(userID: string, rootWithExaTmp: bool, pushKeyOpt: bool, konepw: bool,
                          prompt: bool, serializeOps: bool): (s: Settings)
    ensures s.pushKey <==> pushKeyOpt || konepw
    ensures s.batchmode <==> !prompt && !s.pushKey
    ensures s.strictHostKeyChecking == s.batchmode
    ensures s.serialize <==> serializeOps || pushKeyOpt
    ensures s.user == RemoteUser(userID, rootWithExaTmp) && s.konepw == konepw
  {
    var pushKey := pushKeyOpt || konepw;
    Settings(RemoteUser(userID, rootWithExaTmp), pushKey, konepw, !(prompt || pushKey),
             !(prompt || pushKey), serializeOps || pushKeyOpt)
  }

  /** ssh may prompt (no batch mode, no strict host key checking) exactly when --prompt is
      given or a key is pushed, so a key push can always answer the password and host-key
      questions; the terminal pass-through of -k always runs one host at a time, while
      --key-with-one-password alone does not serialize. */
  lemma PromptRules(userID: string, rootWithExaTmp: bool, pushKeyOpt: bool, konepw: bool, prompt: bool,
                    serializeOps: bool)
    ensures var s := DeriveSettings(userID, rootWithExaTmp, pushKeyOpt, konepw, prompt, serializeOps);
      (s.pushKey ==> !s.batchmode && !s.strictHostKeyChecking)
      && (!prompt && !s.pushKey ==> s.batchmode && s.strictHostKeyChecking)
      && (pushKeyOpt ==> s.pushKey && s.serialize)
      && (konepw && !pushKeyOpt ==> (s.serialize <==> serializeOps))
      && s.user != ""
  {
  }

  /** --ctimeout when set and nonzero, the default otherwise. */
  function EffectiveConnectTimeout(connectTimeout: int): int
  {
    if connectTimeout != 0 then connectTimeout else DefaultConnectionTimeout
  }

  function UserPart(sshOptions: string): string
  {
    if sshOptions != "" then " " + sshOptions + " " else " "
  }

  function ModePart(batchmode: bool, strictHostKeyChecking: bool): string
  {
    (if batchmode then "-o BatchMode=yes " else "")
      + (if strictHostKeyChecking then "-o strictHostKeyChecking=yes " else "")
  }

  function TimeoutPart(connectTimeout: int): string
  {
    ConnectTimeoutOption + IntToString(EffectiveConnectTimeout(connectTimeout)) + " "
  }

  function KeepAlivePart(sshOptions: string): string
  {
    (if sshOptions == "" || !Contains(Lower(sshOptions), "serveraliveinterval=") then ServerAliveIntervalOption + " " else "")
      + (if sshOptions == "" || !Contains(Lower(sshOptions), "serveralivecountmax=") then ServerAliveCountMaxOption + " " else "")
  }

  /** The ssh option string: the user's --ssh-options first, then batch mode and strict host
      key checking when ssh may not prompt, the connect timeout, and the keep-alive defaults
      the user did not set. `connectTimeout` is --ctimeout, 0 when absent. */
  function OpString(sshOptions: string, batchmode: bool, strictHostKeyChecking: bool, connectTimeout: int): string
  {
    UserPart(sshOptions) + ModePart(batchmode, strictHostKeyChecking) + TimeoutPart(connectTimeout) + KeepAlivePart(sshOptions)
  }

  /** The user's ssh options come first, so that ssh, which keeps the first value it sees
      for an option, honours them. */
  lemma OpStringStartsWithUserOptions(sshOptions: string, batchmode: bool, strict: bool, connectTimeout: int)
    requires sshOptions != ""
    ensures StartsWith(OpString(sshOptions, batchmode, strict, connectTimeout), " " + sshOptions + " ")
  {
    var u := UserPart(sshOptions);
    var rest := ModePart(batchmode, strict) + TimeoutPart(connectTimeout) + KeepAlivePart(sshOptions);
    assert OpString(sshOptions, batchmode, strict, connectTimeout) == u + rest by {
      ConcatAssoc(u, ModePart(batchmode, strict), TimeoutPart(connectTimeout));
      ConcatAssoc(u, ModePart(batchmode, strict) + TimeoutPart(connectTimeout), KeepAlivePart(sshOptions));
    }
    assert u == " " + sshOptions + " ";
    ContainsItself(u);
    assert (u + rest)[..|u|] == u;
  }

  /** Every ssh invocation carries a connect timeout: --ctimeout, or 5 seconds. */
  lemma OpStringHasConnectTimeout(sshOptions: string, batchmode: bool, strict: bool, connectTimeout: int)
    ensures Contains(OpString(sshOptions, batchmode, strict, connectTimeout),
                     ConnectTimeoutOption + IntToString(if connectTimeout != 0 then connectTimeout else 5) + " ")
  {
    var t := TimeoutPart(connectTimeout);
    ContainsItself(t);
    ContainsInMiddle(UserPart(sshOptions) + ModePart(batchmode, strict), t, KeepAlivePart(sshOptions), t);
  }

  /** Without --prompt, -k or --key-with-one-password, ssh runs in batch mode. */
  lemma OpStringBatchMode(sshOptions: string, batchmode: bool, strict: bool, connectTimeout: int)
    requires batchmode
    ensures Contains(OpString(sshOptions, batchmode, strict, connectTimeout), "-o BatchMode=yes ")
  {
    var m := ModePart(batchmode, strict);
    var x := "-o BatchMode=yes ";
    ContainsPrefix(x, if strict then "-o strictHostKeyChecking=yes " else "", x);
    ContainsInMiddle(UserPart(sshOptions), m, TimeoutPart(connectTimeout) + KeepAlivePart(sshOptions), x);
    var u := UserPart(sshOptions);
    var t := TimeoutPart(connectTimeout);
    var k := KeepAlivePart(sshOptions);
    assert OpString(sshOptions, batchmode, strict, connectTimeout) == u + m + (t + k) by {
      ConcatAssoc(u + m, t, k);
    }
  }

  /** Lower-casing a string that contains `x` gives one that contains `Lower(x)`. */
  lemma LowerKeepsContains(s: string, x: string)
    requires Contains(s, x)
    ensures Contains(Lower(s), Lower(x))
  {
    var i :| 0 <= i <= |s| - |x| && OccursAt(s, x, i);
    assert Lower(s)[i..i + |x|] == Lower(x);
    assert OccursAt(Lower(s), Lower(x), i);
  }

  lemma LowerIntervalDefault()
    ensures Contains(Lower(ServerAliveIntervalOption + " "), "serveraliveinterval=")
  {
    var l := Lower(ServerAliveIntervalOption + " ");
    var x := "serveraliveinterval=";
    forall i | 0 <= i < |x| ensures l[3 + i] == x[i] {
    }
    assert l[3..3 + |x|] == x;
    assert OccursAt(l, x, 3);
  }

  lemma LowerCountMaxDefault()
    ensures Contains(Lower(ServerAliveCountMaxOption + " "), "serveralivecountmax=")
  {
    var l := Lower(ServerAliveCountMaxOption + " ");
    var x := "serveralivecountmax=";
    forall i | 0 <= i < |x| ensures l[3 + i] == x[i] {
    }
    assert l[3..3 + |x|] == x;
    assert OccursAt(l, x, 3);
  }

  /** A keep-alive setting present in the lower-cased user options or in the lower-cased
      defaults is present in the lower-cased option string. */
  lemma OpStringContainsLowered(sshOptions: string, batchmode: bool, strict: bool, connectTimeout: int, x: string)
    requires (sshOptions != "" && Contains(Lower(sshOptions), x)) || Contains(Lower(KeepAlivePart(sshOptions)), x)
    ensures Contains(Lower(OpString(sshOptions, batchmode, strict, connectTimeout)), x)
  {
    var u := UserPart(sshOptions);
    var m := ModePart(batchmode, strict);
    var t := TimeoutPart(connectTimeout);
    var k := KeepAlivePart(sshOptions);
    LowerConcat(u + m + t, k);
    LowerConcat(u + m, t);
    LowerConcat(u, m);
    if sshOptions != "" && Contains(Lower(sshOptions), x) {
      LowerConcat(" " + sshOptions, " ");
      LowerConcat(" ", sshOptions);
      ContainsRight(Lower(" "), Lower(sshOptions), x);
      ContainsLeft(Lower(" ") + Lower(sshOptions), Lower(" "), x);
      ContainsLeft(Lower(u), Lower(m), x);
      ContainsLeft(Lower(u) + Lower(m), Lower(t), x);
      ContainsLeft(Lower(u + m + t), Lower(k), x);
    } else {
      ContainsRight(Lower(u + m + t), Lower(k), x);
    }
  }

  /** Whatever the user passed, every ssh invocation sets a keep-alive interval: the user's
      own setting, or the default. */
  lemma OpStringAlwaysSetsInterval(sshOptions: string, batchmode: bool, strict: bool, connectTimeout: int)
    ensures Contains(Lower(OpString(sshOptions, batchmode, strict, connectTimeout)), "serveraliveinterval=")
  {
    var x := "serveraliveinterval=";
    if !(sshOptions != "" && Contains(Lower(sshOptions), x)) {
      var ki := ServerAliveIntervalOption + " ";
      var kc := if sshOptions == "" || !Contains(Lower(sshOptions), "serveralivecountmax=") then ServerAliveCountMaxOption + " " else "";
      assert KeepAlivePart(sshOptions) == ki + kc;
      LowerConcat(ki, kc);
      LowerIntervalDefault();
      ContainsLeft(Lower(ki), Lower(kc), x);
    }
    OpStringContainsLowered(sshOptions, batchmode, strict, connectTimeout, x);
  }

  /** Likewise every ssh invocation sets a keep-alive count. */
  lemma OpStringAlwaysSetsCountMax(sshOptions: string, batchmode: bool, strict: bool, connectTimeout: int)
    ensures Contains(Lower(OpString(sshOptions, batchmode, strict, connectTimeout)), "serveralivecountmax=")
  {
    var x := "serveralivecountmax=";
    if !(sshOptions != "" && Contains(Lower(sshOptions), x)) {
      var ki := if sshOptions == "" || !Contains(Lower(sshOptions), "serveraliveinterval=") then ServerAliveIntervalOption + " " else "";
      var kc := ServerAliveCountMaxOption + " ";
      assert KeepAlivePart(sshOptions) == ki + kc;
      LowerConcat(ki, kc);
      LowerCountMaxDefault();
      ContainsInMiddle(Lower(ki), Lower(kc), [], x);
      assert Lower(ki) + Lower(kc) + [] == Lower(KeepAlivePart(sshOptions));
    }
    OpStringContainsLowered(sshOptions, batchmode, strict, connectTimeout, x);
  }

  /** The scp option string: --scp-options if given, else the ssh option string; `-p` is
      added for an exec file unless the string already has it, so the copy stays executable. */
  function ScpOpString(scpOptions: string, opString: string, execFile: string): (r: string)
    ensures var base := if scpOptions != "" then " " + scpOptions + " " else opString;
      StartsWith(r, base) && |r| <= |base| + 3
    ensures execFile != "" ==> Contains(r, "-p")
    ensures var base := if scpOptions != "" then " " + scpOptions + " " else opString;
      (execFile == "" || Contains(base, "-p")) ==> r == base
    ensures var base := if scpOptions != "" then " " + scpOptions + " " else opString;
      (execFile != "" && !Contains(base, "-p")) ==> r == base + "-p "
  {
    var base := if scpOptions != "" then " " + scpOptions + " " else opString;
    if execFile != "" && !Contains(base, "-p") then
      var r := base + "-p ";
      assert r[|base|..|base| + 2] == "-p";
      assert OccursAt(r, "-p", |base|);
      r
    else base
  }
}
