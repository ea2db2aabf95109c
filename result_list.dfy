/** listResults: after a batch has run, the lines printed from the status and output maps.
    With listNegatives the hosts that returned 0 are summarised on one "OK:" line and only
    the others' output is shown; with a regular expression the hosts having an output line
    that matches it are summarised and matching lines are left out of the output shown.
    Hosts are listed in the order of `cells`. */
module ResultList {
  import opened Text
  import opened Wrappers

  /** Python's `str(list)` for a list of host names: `['a', 'b']`. */
  function ListRepr(names: seq<string>): string
  {
    "[" + Join(Quoted(names), ", ") + "]"
  }

  function Quoted(names: seq<string>): (r: seq<string>)
    ensures |r| == |names| && forall j :: 0 <= j < |names| ==> r[j] == "'" + names[j] + "'"
  {
    seq(|names|, j requires 0 <= j < |names| => "'" + names[j] + "'")
  }

  // ---------------------------------------------------------------------------------------
  // The summaries

  /** The hosts, in `cells` order, whose status is 0. */
  function OkCells(cells: seq<string>, status: map<string, int>): seq<string>
  {
    if |cells| == 0 then []
    else
      var c := cells[|cells| - 1];
      OkCells(cells[..|cells| - 1], status) + (if c in status && status[c] == 0 then [c] else [])
  }

  /** Some line of `lines`, stripped, matches at its start. */
  predicate AnyMatch(lines: seq<string>, matches: string -> bool)
  {
    exists l :: l in lines && matches(Strip(l))
  }

  /** The hosts, in `cells` order, with output having a matching line. */
  function MatchingCells(cells: seq<string>, output: map<string, seq<string>>, matches: string -> bool): seq<string>
  {
    if |cells| == 0 then []
    else
      var c := cells[|cells| - 1];
      MatchingCells(cells[..|cells| - 1], output, matches)
        + (if c in output && AnyMatch(output[c], matches) then [c] else [])
  }

  // ---------------------------------------------------------------------------------------
  // The output shown

  /** An output line is shown unless a regular expression is given and the stripped line
      matches it. */
  predicate Shown(l: string, filtering: bool, matches: string -> bool)
  {
    !(filtering && matches(Strip(l)))
  }

  /** How a shown line is printed: stripped, or only right-stripped with preserveSpaces. */
  function Clean(l: string, preserveSpaces: bool): string
  {
    if preserveSpaces then RStrip(l) else Strip(l)
  }

  /** One host's shown lines, each paired with the host. */
  function HostDetails(cell: string, lines: seq<string>, filtering: bool, matches: string -> bool,
                       preserveSpaces: bool): seq<(string, string)>
  {
    if |lines| == 0 then []
    else
      var l := lines[|lines| - 1];
      HostDetails(cell, lines[..|lines| - 1], filtering, matches, preserveSpaces)
        + (if Shown(l, filtering, matches) then [(cell, Clean(l, preserveSpaces))] else [])
  }

  /** Whether a host's output is shown: it has output, and without listNegatives always,
      with it when its status is positive. `None` where the status lookup raises KeyError. */
  function ShowsHost(cell: string, status: map<string, int>, output: map<string, seq<string>>,
                     listNegatives: bool): Option<bool>
  {
    if cell !in output then Some(false)
    else if !listNegatives then Some(true)
    else if cell !in status then None
    else Some(status[cell] > 0)
  }

  /** The shown lines of the hosts in `cells`, in order; `None` where listResults raises. */
  function Details(cells: seq<string>, status: map<string, int>, output: map<string, seq<string>>,
                   listNegatives: bool, filtering: bool, matches: string -> bool, preserveSpaces: bool)
    : Option<seq<(string, string)>>
  {
    if |cells| == 0 then Some([])
    else
      var d := Details(cells[..|cells| - 1], status, output, listNegatives, filtering, matches, preserveSpaces);
      var c := cells[|cells| - 1];
      var shows := ShowsHost(c, status, output, listNegatives);
      if d.None? || shows.None? then None
      else if shows.value then Some(d.value + HostDetails(c, output[c], filtering, matches, preserveSpaces))
      else d
  }

  function DetailLine(d: (string, string)): string
  {
    d.0 + ": " + d.1
  }

  function DetailLines(ds: seq<(string, string)>): (r: seq<string>)
    ensures |r| == |ds| && forall j :: 0 <= j < |ds| ==> r[j] == DetailLine(ds[j])
  {
    seq(|ds|, j requires 0 <= j < |ds| => DetailLine(ds[j]))
  }

  /** Everything listResults prints, in order. `regexp` is the option's text, empty when it
      is not given; `matches` is its compiled form's `match`. */
  function Listing(cells: seq<string>, status: map<string, int>, output: map<string, seq<string>>,
                   listNegatives: bool, regexp: string, matches: string -> bool, preserveSpaces: bool)
    : Option<seq<string>>
  {
    var ok := OkCells(cells, status);
    var re := MatchingCells(cells, output, matches);
    var okLine := if listNegatives && |ok| > 0 then ["OK: " + ListRepr(ok)] else [];
    var reLine := if regexp != "" && |re| > 0 then [regexp + ": " + ListRepr(re)] else [];
    var d := Details(cells, status, output, listNegatives, regexp != "", matches, preserveSpaces);
    if d.None? then None else Some(okLine + reLine + DetailLines(d.value))
  }

  // ---------------------------------------------------------------------------------------
  // listResults itself

  method CollectOk(cells: seq<string>, status: map<string, int>) returns (ok: seq<string>)
    ensures ok == OkCells(cells, status)
  {
    ok := [];
    for i := 0 to |cells|
      invariant ok == OkCells(cells[..i], status)
    {
      assert cells[..i + 1][..i] == cells[..i];
      if cells[i] in status && status[cells[i]] == 0 {
        ok := ok + [cells[i]];
      }
    }
    assert cells[..|cells|] == cells;
  }

  /** The inner loop over a host's lines, leaving it at the first match. */
  method FindMatch(lines: seq<string>, matches: string -> bool) returns (found: bool)
    ensures found == AnyMatch(lines, matches)
  {
    found := false;
    var i := 0;
    while i < |lines|
      invariant 0 <= i <= |lines|
      invariant forall k :: 0 <= k < i ==> !matches(Strip(lines[k]))
    {
      if matches(Strip(lines[i])) {
        found := true;
        return;
      }
      i := i + 1;
    }
  }

  method CollectMatching(cells: seq<string>, output: map<string, seq<string>>, matches: string -> bool)
    returns (re: seq<string>)
    ensures re == MatchingCells(cells, output, matches)
  {
    re := [];
    for i := 0 to |cells|
      invariant re == MatchingCells(cells[..i], output, matches)
    {
      assert cells[..i + 1][..i] == cells[..i];
      if cells[i] in output {
        var found := FindMatch(output[cells[i]], matches);
        if found {
          re := re + [cells[i]];
        }
      }
    }
    assert cells[..|cells|] == cells;
  }

  /** The printing loop over one host's output. */
  method PrintHost(cell: string, lines: seq<string>, filtering: bool, matches: string -> bool,
                   preserveSpaces: bool) returns (printed: seq<string>)
    ensures printed == DetailLines(HostDetails(cell, lines, filtering, matches, preserveSpaces))
  {
    printed := [];
    for i := 0 to |lines|
      invariant printed == DetailLines(HostDetails(cell, lines[..i], filtering, matches, preserveSpaces))
    {
      ghost var before := printed;
      if Shown(lines[i], filtering, matches) {
        if preserveSpaces {
          printed := printed + [cell + ": " + RStrip(lines[i])];
        } else {
          printed := printed + [cell + ": " + Strip(lines[i])];
        }
      }
      PrintStep(cell, lines, i, filtering, matches, preserveSpaces, before, printed);
    }
    assert lines[..|lines|] == lines;
  }

  /** One more line of a host's output: printed when shown, cleaned as the options say. */
  lemma PrintStep(cell: string, lines: seq<string>, i: nat, filtering: bool, matches: string -> bool,
                  preserveSpaces: bool, printed: seq<string>, printed': seq<string>)
    requires i < |lines|
    requires printed == DetailLines(HostDetails(cell, lines[..i], filtering, matches, preserveSpaces))
    requires printed' == printed + (if Shown(lines[i], filtering, matches) then [cell + ": " + Clean(lines[i], preserveSpaces)] else [])
    ensures printed' == DetailLines(HostDetails(cell, lines[..i + 1], filtering, matches, preserveSpaces))
  {
    assert lines[..i + 1][..i] == lines[..i];
    DetailLinesSnoc(HostDetails(cell, lines[..i], filtering, matches, preserveSpaces), (cell, Clean(lines[i], preserveSpaces)));
  }

  lemma DetailLinesSnoc(ds: seq<(string, string)>, d: (string, string))
    ensures DetailLines(ds + [d]) == DetailLines(ds) + [DetailLine(d)]
  {
  }

  lemma DetailLinesAppend(ds: seq<(string, string)>, es: seq<(string, string)>)
    ensures DetailLines(ds + es) == DetailLines(ds) + DetailLines(es)
  {
  }

  /** listResults: the lines it prints, or `None` where it raises KeyError (a host with output
      but no status, under listNegatives). */
  method ListResults(cells: seq<string>, status: map<string, int>, output: map<string, seq<string>>,
                     listNegatives: bool, regexp: string, matches: string -> bool, preserveSpaces: bool)
    returns (printed: Option<seq<string>>)
    ensures printed == Listing(cells, status, output, listNegatives, regexp, matches, preserveSpaces)
  {
    var head: seq<string> := [];
    if listNegatives {
      var ok := CollectOk(cells, status);
      if |ok| > 0 {
        head := head + ["OK: " + ListRepr(ok)];
      }
    }
    var filtering := regexp != "";
    if filtering {
      var re := CollectMatching(cells, output, matches);
      if |re| > 0 {
        head := head + [regexp + ": " + ListRepr(re)];
      }
    }
    assert head == (if listNegatives && |OkCells(cells, status)| > 0 then ["OK: " + ListRepr(OkCells(cells, status))] else [])
                 + (if filtering && |MatchingCells(cells, output, matches)| > 0
                    then [regexp + ": " + ListRepr(MatchingCells(cells, output, matches))] else []);
    var body := PrintDetails(cells, status, output, listNegatives, filtering, matches, preserveSpaces);
    if body.None? {
      return None;
    }
    printed := Some(head + body.value);
  }

  /** The loop over the hosts printing their shown lines. */
  method PrintDetails(cells: seq<string>, status: map<string, int>, output: map<string, seq<string>>,
                      listNegatives: bool, filtering: bool, matches: string -> bool, preserveSpaces: bool)
    returns (printed: Option<seq<string>>)
    ensures var d := Details(cells, status, output, listNegatives, filtering, matches, preserveSpaces);
      printed == if d.None? then None else Some(DetailLines(d.value))
  {
    var lines: seq<string> := [];
    for i := 0 to |cells|
      invariant Details(cells[..i], status, output, listNegatives, filtering, matches, preserveSpaces).Some?
      invariant lines == DetailLines(Details(cells[..i], status, output, listNegatives, filtering, matches, preserveSpaces).value)
    {
      var cell := cells[i];
      assert cells[..i + 1][..i] == cells[..i];
      var d := Details(cells[..i], status, output, listNegatives, filtering, matches, preserveSpaces).value;
      if cell in output {
        if listNegatives && cell !in status {
          DetailsStopped(cells, status, output, listNegatives, filtering, matches, preserveSpaces, i + 1);
          return None;
        }
        if !listNegatives || status[cell] > 0 {
          var more := PrintHost(cell, output[cell], filtering, matches, preserveSpaces);
          DetailLinesAppend(d, HostDetails(cell, output[cell], filtering, matches, preserveSpaces));
          lines := lines + more;
        }
      }
    }
    assert cells[..|cells|] == cells;
    printed := Some(lines);
  }

  /** Once a prefix of the hosts raises, so do all of them. */
  lemma {:induction false} DetailsStopped(cells: seq<string>, status: map<string, int>, output: map<string, seq<string>>,
                                          listNegatives: bool, filtering: bool, matches: string -> bool,
                                          preserveSpaces: bool, n: nat)
    requires n <= |cells|
    requires Details(cells[..n], status, output, listNegatives, filtering, matches, preserveSpaces).None?
    ensures Details(cells, status, output, listNegatives, filtering, matches, preserveSpaces).None?
    decreases |cells| - n
  {
    if n < |cells| {
      assert cells[..n + 1][..n] == cells[..n];
      DetailsStopped(cells, status, output, listNegatives, filtering, matches, preserveSpaces, n + 1);
    } else {
      assert cells[..n] == cells;
    }
  }

  // ---------------------------------------------------------------------------------------
  // What the listing says

  /** The "OK:" hosts are exactly the listed hosts whose status is 0. */
  lemma {:induction false} OkCellsExactly(cells: seq<string>, status: map<string, int>, x: string)
    ensures x in OkCells(cells, status) <==> x in cells && x in status && status[x] == 0
  {
    if |cells| > 0 {
      var front := cells[..|cells| - 1];
      assert cells == front + [cells[|cells| - 1]];
      OkCellsExactly(front, status, x);
    }
  }

  /** The hosts summarised under the regular expression are exactly the listed hosts with an
      output line whose stripped text matches it. */
  lemma {:induction false} MatchingCellsExactly(cells: seq<string>, output: map<string, seq<string>>,
                                                matches: string -> bool, x: string)
    ensures x in MatchingCells(cells, output, matches)
      <==> x in cells && x in output && exists l :: l in output[x] && matches(Strip(l))
  {
    if |cells| > 0 {
      var front := cells[..|cells| - 1];
      assert cells == front + [cells[|cells| - 1]];
      MatchingCellsExactly(front, output, matches, x);
    }
  }

  /** A host's shown lines are exactly its non-matching lines, cleaned. */
  lemma {:induction false} HostDetailsExactly(cell: string, lines: seq<string>, filtering: bool,
                                              matches: string -> bool, preserveSpaces: bool, d: (string, string))
    ensures d in HostDetails(cell, lines, filtering, matches, preserveSpaces)
      <==> d.0 == cell && exists l :: l in lines && Shown(l, filtering, matches) && d.1 == Clean(l, preserveSpaces)
  {
    if |lines| > 0 {
      var front := lines[..|lines| - 1];
      assert lines == front + [lines[|lines| - 1]];
      HostDetailsExactly(cell, front, filtering, matches, preserveSpaces, d);
    }
  }

  /** listResults raises only under listNegatives, for a listed host with output and no
      status. */
  lemma {:induction false} DetailsDefined(cells: seq<string>, status: map<string, int>, output: map<string, seq<string>>,
                                          listNegatives: bool, filtering: bool, matches: string -> bool,
                                          preserveSpaces: bool)
    ensures Details(cells, status, output, listNegatives, filtering, matches, preserveSpaces).None?
      <==> listNegatives && exists c :: c in cells && c in output && c !in status
  {
    if |cells| > 0 {
      var front := cells[..|cells| - 1];
      assert cells == front + [cells[|cells| - 1]];
      DetailsDefined(front, status, output, listNegatives, filtering, matches, preserveSpaces);
    }
  }

  /** The output shown is exactly, host by host, the shown lines of the listed hosts that
      have output and, under listNegatives, a positive status. */
  lemma {:induction false} DetailsExactly(cells: seq<string>, status: map<string, int>, output: map<string, seq<string>>,
                                          listNegatives: bool, filtering: bool, matches: string -> bool,
                                          preserveSpaces: bool, d: (string, string))
    requires Details(cells, status, output, listNegatives, filtering, matches, preserveSpaces).Some?
    ensures d in Details(cells, status, output, listNegatives, filtering, matches, preserveSpaces).value
      <==> d.0 in cells && d.0 in output && (listNegatives ==> d.0 in status && status[d.0] > 0)
           && exists l :: l in output[d.0] && Shown(l, filtering, matches) && d.1 == Clean(l, preserveSpaces)
  {
    if |cells| > 0 {
      var front := cells[..|cells| - 1];
      var c := cells[|cells| - 1];
      assert cells == front + [c];
      DetailsExactly(front, status, output, listNegatives, filtering, matches, preserveSpaces, d);
      assert d.0 in cells <==> d.0 in front || d.0 == c;
      if c in output {
        HostDetailsExactly(c, output[c], filtering, matches, preserveSpaces, d);
      }
    }
  }
}
