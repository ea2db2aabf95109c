/** The text dcli sends to the remote shell: the command built from the arguments,
    the destination name and wrapper for an exec file, and the single-quoting that
    keeps the local ssh from interpreting the command. */
module RemoteCommand {
  import opened Text
  import opened Wrappers

  /** The scratch directory used with --root-exadatatmp. */
  const ExaTmpDir: string := "/var/log/exadatatmp/"

  /** The words of the command, each preceded by one space. */
  function Words(args: seq<string>): string
  {
    if |args| == 0 then "" else " " + Join(args, " ")
  }

  /** `cd` into the scratch directory when running as root there. */
  function CdPrefix(rootWithExaTmp: bool): string
  {
    if rootWithExaTmp then "cd " + ExaTmpDir + ";" else ""
  }

  /** Where stderr goes: nowhere with --hidestderr, otherwise merged into stdout. */
  function Redirect(hideStderr: bool): string
  {
    if hideStderr then " 2>/dev/null" else " 2>&1"
  }

  /** The whole command under `timeout`, run by a POSIX shell. */
  function WithTimeout(timeout: Option<string>, command: string): string
  {
    if timeout.Some? then "timeout " + timeout.value + "s /bin/sh -c '(" + command + ")'" else command
  }

  lemma WordsSnoc(args: seq<string>, w: string)
    ensures Words(args + [w]) == Words(args) + " " + w
  {
    if |args| == 0 {
      assert [] + [w] == [w];
    } else {
      JoinSnoc(args, w, " ");
    }
  }

  /** The argument loop of buildCommand: one space and the word, per argument. */
  method AppendWords(start: string, args: seq<string>) returns (command: string)
    ensures command == start + Words(args)
  {
    command := start;
    var i := 0;
    while i < |args|
      invariant 0 <= i <= |args|
      invariant command == start + Words(args[..i])
    {
      ghost var before := Words(args[..i]);
      assert Words(args[..i + 1]) == before + " " + args[i] by {
        assert args[..i + 1] == args[..i] + [args[i]];
        WordsSnoc(args[..i], args[i]);
      }
      command := command + " " + args[i];
      assert command == start + (before + " " + args[i]);
      i := i + 1;
    }
    assert args[..i] == args;
  }

  /** dcli's buildCommand. `timeout` is the rendering of --timeout when it is set and
      nonzero, `None` otherwise. */
  method BuildCommand(args: seq<string>, rootWithExaTmp: bool, hideStderr: bool, timeout: Option<string>)
    returns (command: string)
    ensures command == WithTimeout(timeout, "(" + CdPrefix(rootWithExaTmp) + Words(args) + ")" + Redirect(hideStderr))
  {
    command := "(";
    if rootWithExaTmp {
      command := command + "cd " + ExaTmpDir + ";";
    }
    ghost var head := "(" + CdPrefix(rootWithExaTmp);
    assert command == head;
    command := AppendWords(command, args);
    ghost var words := command;
    ghost var tail := ")" + Redirect(hideStderr);
    if hideStderr {
      assert tail == ") 2>/dev/null";
      command := command + ") 2>/dev/null";
    } else {
      assert tail == ") 2>&1";
      command := command + ") 2>&1";
    }
    assert command == words + tail;
    ConcatAssoc(words, ")", Redirect(hideStderr));
    assert command == "(" + CdPrefix(rootWithExaTmp) + Words(args) + ")" + Redirect(hideStderr);
    if timeout.Some? {
      command := "timeout " + timeout.value + "s /bin/sh -c '(" + command + ")'";
    }
  }

  /** The argument words can be read back from the built command when none contains a space. */
  lemma WordsRoundTrip(args: seq<string>)
    requires |args| >= 1
    requires forall k :: 0 <= k < |args| ==> ' ' !in args[k]
    ensures Words(args)[0] == ' ' && Split(Words(args)[1..], " ") == args
  {
    assert Words(args)[1..] == Join(args, " ");
    JoinSplit(args, ' ');
  }

  /** Python's `re.match(pattern, s)` for `^q.*q$`: `.` matches anything but a newline,
      and `$` also matches just before a final newline. */
  predicate Framed(s: string, q: char)
  {
    (|s| >= 2 && s[0] == q && s[|s| - 1] == q && '\n' !in s[1..|s| - 1])
    || (|s| >= 3 && s[0] == q && s[|s| - 2] == q && s[|s| - 1] == '\n' && '\n' !in s[1..|s| - 2])
  }

  /** Each `'` becomes `'\''`: close the quote, an escaped quote, reopen. */
  function EscapeQuotes(s: string): string
  {
    Replace(s, "'", "'\\''")
  }

  /** The quoting step before the command goes to ssh: an empty command and one already
      in single or double quotes are kept; anything else is put in single quotes. */
  function Quote(command: string): (r: string)
    ensures command == "" ==> r == ""
    ensures (Framed(command, '\'') || Framed(command, '"')) ==> r == command
    ensures '\n' !in command ==> Framed(r, '\'') || Framed(r, '"') || r == ""
  {
    if command == "" || Framed(command, '\'') || Framed(command, '"') then command
    else
      var e := EscapeQuotes(command);
      assert '\n' !in command ==> '\n' !in e by {
        if '\n' !in command {
          ReplaceKeepsCharOut(command, "'", "'\\''", '\n');
        }
      }
      var r := "'" + e + "'";
      assert r[1..|r| - 1] == e;
      r
  }

  /** Quoting an already quoted command changes nothing, for commands without a newline. */
  lemma QuoteIdempotent(command: string)
    requires '\n' !in command
    ensures Quote(Quote(command)) == Quote(command)
  {
  }

  /** How a POSIX shell reads one word made of single-quoted runs and backslash escapes;
      `inQuote` says whether a single quote is open. */
  function ShellRead(w: string, inQuote: bool): string
    decreases |w|
  {
    if |w| == 0 then ""
    else if inQuote then
      if w[0] == '\'' then ShellRead(w[1..], false) else [w[0]] + ShellRead(w[1..], true)
    else if w[0] == '\'' then ShellRead(w[1..], true)
    else if w[0] == '\\' && |w| >= 2 then [w[1]] + ShellRead(w[2..], false)
    else [w[0]] + ShellRead(w[1..], false)
  }

  lemma {:induction false} ShellReadsEscaped(s: string)
    ensures ShellRead(EscapeQuotes(s) + "'", true) == s
    decreases |s|
  {
    if |s| == 0 {
      assert EscapeQuotes(s) + "'" == "'";
    } else if StartsWith(s, "'") {
      var rest := EscapeQuotes(s[1..]);
      ShellReadsEscaped(s[1..]);
      assert EscapeQuotes(s) == "'\\''" + rest;
      var w := EscapeQuotes(s) + "'";
      assert w[0] == '\'' && w[1] == '\\' && w[3] == '\'';
      assert ShellRead(w, true) == ShellRead(w[1..], false);
      assert w[1..][0] == '\\' && w[1..][1] == '\'' && w[1..][2..] == w[3..];
      assert ShellRead(w[1..], false) == "'" + ShellRead(w[3..], false);
      assert w[3..][1..] == w[4..] == rest + "'";
      assert ShellRead(w[3..], false) == ShellRead(w[4..], true);
      assert s == "'" + s[1..];
    } else {
      var rest := EscapeQuotes(s[1..]);
      ShellReadsEscaped(s[1..]);
      var w := EscapeQuotes(s) + "'";
      assert w == [s[0]] + rest + "'";
      assert w[1..] == rest + "'";
      assert s == [s[0]] + s[1..];
    }
  }

  /** The remote shell sees exactly the command dcli built, whatever quotes it contains,
      whenever the quoting step wrapped it. */
  lemma QuoteRoundTrip(command: string)
    requires command != "" && !Framed(command, '\'') && !Framed(command, '"')
    ensures ShellRead(Quote(command), false) == command
  {
    var w := Quote(command);
    assert w[1..] == EscapeQuotes(command) + "'";
    ShellReadsEscaped(command);
  }

  /** `os.path.basename`: the text after the last `/`. */
  function Basename(path: string): (r: string)
    ensures '/' !in r && EndsWith(path, r)
    ensures |r| < |path| ==> path[|path| - |r| - 1] == '/'
    decreases |path|
  {
    if |path| == 0 || path[|path| - 1] == '/' then ""
    else
      var front := path[..|path| - 1];
      var r := Basename(front) + [path[|path| - 1]];
      SuffixSnoc(path, front, Basename(front));
      r
  }

  /** A suffix of all but the last character, followed by that character, is a suffix,
      and what precedes it is what preceded the shorter one. */
  lemma SuffixSnoc(s: string, front: string, t: string)
    requires |s| > 0 && front == s[..|s| - 1] && EndsWith(front, t)
    ensures EndsWith(s, t + [s[|s| - 1]])
    ensures |t| < |front| ==> s[|s| - |t| - 2] == front[|front| - |t| - 1]
  {
    assert s[|s| - |t| - 1..] == front[|front| - |t|..] + [s[|s| - 1]];
  }

  /** A destination kept as given: absolute, or starting with an escaped `~` or `$`
      for the remote shell to expand. */
  predicate IsAnchored(name: string)
  {
    StartsWith(name, "/") || StartsWith(name, "\\~") || StartsWith(name, "\\$")
  }

  /** The remote destination for -f/-x: -d if given, else the exec file's base name, else
      empty; a name that is not anchored is placed in the scratch directory (as root there)
      or in the login directory. `execFile` and `destfile` are "" when absent. */
  function DestName(execFile: string, destfile: string, rootWithExaTmp: bool): (r: string)
    ensures var name := if destfile != "" then destfile else if execFile != "" then Basename(Strip(execFile)) else "";
      EndsWith(r, name)
      && (IsAnchored(name) ==> r == name)
      && (!IsAnchored(name) ==> r == (if rootWithExaTmp then ExaTmpDir else "./") + name)
    ensures IsAnchored(r) || StartsWith(r, "./")
  {
    var name := if destfile != "" then destfile else if execFile != "" then Basename(Strip(execFile)) else "";
    if IsAnchored(name) then name
    else if rootWithExaTmp then
      var r := ExaTmpDir + name;
      assert r[..1] == "/";
      r
    else
      var r := "./" + name;
      assert r[..2] == "./";
      r
  }

  /** The files to copy: each -f file stripped, then the stripped -x file. */
  function FilesToCopy(copyfiles: seq<string>, execFile: string): (r: seq<string>)
    ensures |r| == |copyfiles| + (if execFile != "" then 1 else 0)
    ensures forall k :: 0 <= k < |copyfiles| ==> r[k] == Strip(copyfiles[k])
    ensures execFile != "" ==> r[|r| - 1] == Strip(execFile)
  {
    seq(|copyfiles|, k requires 0 <= k < |copyfiles| => Strip(copyfiles[k]))
      + (if execFile != "" then [Strip(execFile)] else [])
  }

  /** `if [[ -d dir ]]; then a ; else b ; fi`. */
  function IfDirectory(dir: string, a: string, b: string): string
  {
    var open := "if [[ -d " + dir + " ]]; then ";
    var close := " ; else " + b + " ; fi";
    open + a + close
  }

  /** How an exec file is run: a `.scl` file is a CellCLI script, anything else runs itself. */
  function Runner(execFile: string): string
  {
    if EndsWith(Strip(execFile), ".scl") then "cellcli -e @" else ""
  }

  /** The command that runs a copied exec file: `dest/base` when the destination is a
      directory, `dest` itself otherwise, inside the same `cd` and stderr frame as a
      built command. */
  function ExecCommand(execFile: string, destname: string, rootWithExaTmp: bool, hideStderr: bool): string
  {
    var runner := Runner(execFile);
    var inDir := runner + (destname + "/" + Basename(Strip(execFile)));
    "(" + CdPrefix(rootWithExaTmp) + IfDirectory(destname, inDir, runner + destname) + ")" + Redirect(hideStderr)
  }

  /** The wrapper keeps the frame of a built command: the `cd` into the scratch directory
      as root there, and the stderr redirection after the closing parenthesis; inside, the
      test for a directory, and the exec file run under the destination name itself when it
      is not a directory. */
  lemma ExecCommandShape(execFile: string, destname: string, rootWithExaTmp: bool, hideStderr: bool)
    ensures var x := ExecCommand(execFile, destname, rootWithExaTmp, hideStderr);
      var open := "if [[ -d " + destname + " ]]; then ";
      var close := " ; else " + (Runner(execFile) + destname) + " ; fi";
      StartsWith(x, "(" + CdPrefix(rootWithExaTmp) + open)
      && EndsWith(x, close + ")" + Redirect(hideStderr))
  {
    var runner := Runner(execFile);
    var open := "if [[ -d " + destname + " ]]; then ";
    var close := " ; else " + (runner + destname) + " ; fi";
    var inDir := runner + (destname + "/" + Basename(Strip(execFile)));
    assert IfDirectory(destname, inDir, runner + destname) == open + inDir + close;
    Framing("(", CdPrefix(rootWithExaTmp), open, inDir, close, ")", Redirect(hideStderr));
  }

  /** When the destination is a directory, the wrapper runs the file under its own base name
      inside it, through CellCLI for a `.scl` file. */
  lemma ExecCommandRunsInsideDirectory(execFile: string, destname: string, rootWithExaTmp: bool, hideStderr: bool)
    ensures Contains(ExecCommand(execFile, destname, rootWithExaTmp, hideStderr),
                     Runner(execFile) + destname + "/" + Basename(Strip(execFile)))
  {
    var runner := Runner(execFile);
    var x := runner + (destname + "/" + Basename(Strip(execFile)));
    var dirTest := IfDirectory(destname, x, runner + destname);
    var open := "if [[ -d " + destname + " ]]; then ";
    var close := " ; else " + (runner + destname) + " ; fi";
    assert dirTest == open + x + close;
    ContainsItself(x);
    ContainsInMiddle(open, x, close, x);
    ContainsInMiddle("(" + CdPrefix(rootWithExaTmp), dirTest, ")" + Redirect(hideStderr), x);
    assert x == runner + destname + "/" + Basename(Strip(execFile)) by {
      ConcatAssoc(runner, destname, "/");
      ConcatAssoc(runner, destname + "/", Basename(Strip(execFile)));
    }
    assert ExecCommand(execFile, destname, rootWithExaTmp, hideStderr)
        == "(" + CdPrefix(rootWithExaTmp) + dirTest + (")" + Redirect(hideStderr)) by {
      ConcatAssoc("(" + CdPrefix(rootWithExaTmp) + dirTest, ")", Redirect(hideStderr));
    }
  }
}
