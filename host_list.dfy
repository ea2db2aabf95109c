/** The list of hosts dcli contacts: the lines of the `-g` group file, then the
    comma-separated `-c` entries, with repeats removed and first occurrences kept in order. */
module HostList {
  import opened Text
  import opened Wrappers

  /** A group-file line names a host when, once stripped, it is non-empty and not a `#` comment. */
  predicate IsHostLine(t: string) { |t| > 0 && !StartsWith(t, "#") }

  /** The stripped host lines of the group file, in file order. */
  function FileEntries(lines: seq<string>): seq<string>
  {
    if |lines| == 0 then []
    else
      var t := Strip(lines[|lines| - 1]);
      FileEntries(lines[..|lines| - 1]) + (if IsHostLine(t) then [t] else [])
  }

  /** Every piece of `pieces`, stripped, none dropped. */
  function StripAll(pieces: seq<string>): (r: seq<string>)
    ensures |r| == |pieces| && forall j :: 0 <= j < |pieces| ==> r[j] == Strip(pieces[j])
  {
    seq(|pieces|, j requires 0 <= j < |pieces| => Strip(pieces[j]))
  }

  /** The `-c` arguments, each split at commas and every piece stripped, in order. */
  function InlineEntries(cells: seq<string>): seq<string>
  {
    if |cells| == 0 then []
    else InlineEntries(cells[..|cells| - 1]) + StripAll(Split(cells[|cells| - 1], ","))
  }

  /** Drop every element already seen earlier, scanning left to right. */
  function Dedup(xs: seq<string>): seq<string>
  {
    if |xs| == 0 then []
    else
      var u := Dedup(xs[..|xs| - 1]);
      if xs[|xs| - 1] in u then u else u + [xs[|xs| - 1]]
  }

  /** The hosts before de-duplication: group-file entries first, then the inline ones. */
  function Candidates(cells: seq<string>, fileLines: seq<string>): seq<string>
  {
    FileEntries(fileLines) + InlineEntries(cells)
  }

  /** The group-file loop of buildCellList: keep each stripped line that names a host. */
  method CollectFileEntries(lines: seq<string>) returns (celllist: seq<string>)
    ensures celllist == FileEntries(lines)
  {
    celllist := [];
    var i := 0;
    while i < |lines|
      invariant 0 <= i <= |lines|
      invariant celllist == FileEntries(lines[..i])
    {
      var line := Strip(lines[i]);
      assert FileEntries(lines[..i + 1]) == FileEntries(lines[..i]) + (if IsHostLine(line) then [line] else []) by {
        assert lines[..i + 1][..i] == lines[..i];
        assert lines[..i + 1][i] == lines[i];
      }
      if |line| > 0 && !StartsWith(line, "#") {
        celllist := celllist + [line];
      }
      i := i + 1;
    }
    assert lines[..i] == lines;
  }

  /** The `-c` loop of buildCellList: append every stripped comma-separated piece. */
  method CollectInlineEntries(cells: seq<string>) returns (celllist: seq<string>)
    ensures celllist == InlineEntries(cells)
  {
    celllist := [];
    var k := 0;
    while k < |cells|
      invariant 0 <= k <= |cells|
      invariant celllist == InlineEntries(cells[..k])
    {
      var cellSplit := Split(cells[k], ",");
      InlineStep(cells, k);
      ghost var base := celllist;
      var j := 0;
      while j < |cellSplit|
        invariant 0 <= j <= |cellSplit|
        invariant celllist == base + StripAll(cellSplit[..j])
      {
        ghost var before := celllist;
        celllist := celllist + [Strip(cellSplit[j])];
        AppendStripped(base, cellSplit, j, before, celllist);
        j := j + 1;
      }
      assert cellSplit[..j] == cellSplit;
      k := k + 1;
    }
    assert cells[..k] == cells;
  }

  /** One more `-c` argument adds its stripped pieces. */
  lemma InlineStep(cells: seq<string>, k: nat)
    requires k < |cells|
    ensures InlineEntries(cells[..k + 1]) == InlineEntries(cells[..k]) + StripAll(Split(cells[k], ","))
  {
    assert cells[..k + 1][..k] == cells[..k];
  }

  /** One more piece, stripped, extends the stripped prefix. */
  lemma AppendStripped(base: seq<string>, pieces: seq<string>, j: nat, before: seq<string>, after: seq<string>)
    requires j < |pieces| && before == base + StripAll(pieces[..j]) && after == before + [Strip(pieces[j])]
    ensures after == base + StripAll(pieces[..j + 1])
  {
    var longer, shorter := StripAll(pieces[..j + 1]), StripAll(pieces[..j]);
    forall i | 0 <= i < j ensures longer[i] == shorter[i] {
      assert pieces[..j + 1][i] == pieces[..j][i];
    }
    assert longer == shorter + [Strip(pieces[j])];
  }

  /** The de-duplication loop of buildCellList: append each host not yet in the list. */
  method Unique(celllist: seq<string>) returns (unique: seq<string>)
    ensures unique == Dedup(celllist)
  {
    unique := [];
    var n := 0;
    while n < |celllist|
      invariant 0 <= n <= |celllist|
      invariant unique == Dedup(celllist[..n])
    {
      assert celllist[..n + 1][..n] == celllist[..n];
      if celllist[n] !in unique {
        unique := unique + [celllist[n]];
      }
      n := n + 1;
    }
    assert celllist[..n] == celllist;
  }

  /** dcli's buildCellList. `fileName` is the `-g` argument ("" when absent); `fileLines`
      is what reading the stripped name gave, `None` when the read failed. */
  method BuildCellList(cells: seq<string>, fileName: string, fileLines: Option<seq<string>>)
    returns (r: Result<seq<string>, string>)
    ensures r.Err? <==> fileName != "" && fileLines.None?
    ensures r.Err? ==> r.error == Strip(fileName)
    ensures r.Ok? ==> r.value == Dedup(Candidates(cells, if fileName == "" then [] else fileLines.value))
  {
    var fromFile: seq<string> := [];
    if fileName != "" {
      if fileLines.None? {
        return Err(Strip(fileName));
      }
      fromFile := CollectFileEntries(fileLines.value);
    }
    var inline := CollectInlineEntries(cells);
    var unique := Unique(fromFile + inline);
    return Ok(unique);
  }

  /** No host appears twice in the result. */
  lemma {:induction false} DedupNoRepeats(xs: seq<string>)
    ensures forall i, j :: 0 <= i < j < |Dedup(xs)| ==> Dedup(xs)[i] != Dedup(xs)[j]
  {
    if |xs| != 0 {
      DedupNoRepeats(xs[..|xs| - 1]);
    }
  }

  /** No host is lost and none is invented. */
  lemma {:induction false} DedupSameHosts(xs: seq<string>)
    ensures forall x :: x in Dedup(xs) <==> x in xs
  {
    if |xs| != 0 {
      var p := xs[..|xs| - 1];
      DedupSameHosts(p);
      assert xs == p + [xs[|xs| - 1]];
    }
  }

  /** Position of the first occurrence of `x` in `xs`. */
  function FirstIndex(xs: seq<string>, x: string): (k: nat)
    requires x in xs
    ensures k < |xs| && xs[k] == x && x !in xs[..k]
  {
    if xs[0] == x then 0
    else
      var k := 1 + FirstIndex(xs[1..], x);
      assert xs[..k] == [xs[0]] + xs[1..][..k - 1];
      k
  }

  /** An occurrence with no earlier occurrence is the first one. */
  lemma {:induction false} FirstIndexUnique(xs: seq<string>, x: string, k: nat)
    requires k < |xs| && xs[k] == x && x !in xs[..k]
    ensures FirstIndex(xs, x) == k
  {
    if k > 0 {
      assert xs[0] in xs[..k];
      assert xs[1..][..k - 1] == xs[..k][1..];
      FirstIndexUnique(xs[1..], x, k - 1);
    }
  }

  lemma FirstIndexOfPrefix(p: seq<string>, y: string, x: string)
    requires x in p
    ensures x in p + [y] && FirstIndex(p + [y], x) == FirstIndex(p, x)
  {
    var q := p + [y];
    var k := FirstIndex(p, x);
    assert q[k] == x && q[..k] == p[..k];
    FirstIndexUnique(q, x, k);
  }

  /** Hosts keep the order of their first occurrences. */
  lemma {:induction false} DedupKeepsFirstOrder(xs: seq<string>)
    ensures forall i :: 0 <= i < |Dedup(xs)| ==> Dedup(xs)[i] in xs
    ensures forall i, j :: 0 <= i < j < |Dedup(xs)| ==> FirstIndex(xs, Dedup(xs)[i]) < FirstIndex(xs, Dedup(xs)[j])
  {
    if |xs| != 0 {
      var p := xs[..|xs| - 1];
      var y := xs[|xs| - 1];
      assert xs == p + [y];
      DedupKeepsFirstOrder(p);
      DedupSameHosts(p);
      var u := Dedup(p);
      forall i | 0 <= i < |u| ensures FirstIndex(xs, u[i]) == FirstIndex(p, u[i]) {
        FirstIndexOfPrefix(p, y, u[i]);
      }
      if y !in u {
        assert y !in p;
        assert xs[..|p|] == p;
        FirstIndexUnique(xs, y, |p|);
      }
    }
  }

  /** What de-duplication keeps of a prefix is a prefix of what it keeps of the whole:
      so every group-file host comes before every host first named with `-c`. */
  lemma {:induction false} DedupPrefix(a: seq<string>, b: seq<string>)
    ensures |Dedup(a)| <= |Dedup(a + b)| && Dedup(a + b)[..|Dedup(a)|] == Dedup(a)
    decreases |b|
  {
    if |b| == 0 {
      assert a + b == a;
    } else {
      var b' := b[..|b| - 1];
      DedupPrefix(a, b');
      assert (a + b)[..|a + b| - 1] == a + b';
    }
  }

  /** Every group-file entry is a stripped line of the file that names a host. */
  lemma {:induction false} FileEntriesAreHostLines(lines: seq<string>)
    ensures forall x :: x in FileEntries(lines) ==> IsHostLine(x) && exists i :: 0 <= i < |lines| && x == Strip(lines[i])
  {
    if |lines| != 0 {
      var p := lines[..|lines| - 1];
      FileEntriesAreHostLines(p);
      forall x | x in FileEntries(lines) ensures IsHostLine(x) && exists i :: 0 <= i < |lines| && x == Strip(lines[i]) {
        if x in FileEntries(p) {
          var i :| 0 <= i < |p| && x == Strip(p[i]);
          assert lines[i] == p[i];
        } else {
          assert x == Strip(lines[|lines| - 1]);
        }
      }
    }
  }

  /** Every line that names a host, once stripped, is a group-file entry. */
  lemma {:induction false} HostLinesAreFileEntries(lines: seq<string>, i: nat)
    requires i < |lines| && IsHostLine(Strip(lines[i]))
    ensures Strip(lines[i]) in FileEntries(lines)
  {
    var p := lines[..|lines| - 1];
    if i < |p| {
      assert lines[i] == p[i];
      HostLinesAreFileEntries(p, i);
    }
  }

  /** Inline pieces are stripped but never filtered: every piece of every `-c` argument is kept,
      empty ones included. */
  lemma {:induction false} InlineKeepsEveryPiece(cells: seq<string>, k: nat, j: nat)
    requires k < |cells| && j < |Split(cells[k], ",")|
    ensures Strip(Split(cells[k], ",")[j]) in InlineEntries(cells)
  {
    var p := cells[..|cells| - 1];
    if k < |cells| - 1 {
      assert cells[k] == p[k];
      InlineKeepsEveryPiece(p, k, j);
    } else {
      assert StripAll(Split(cells[k], ","))[j] == Strip(Split(cells[k], ",")[j]);
    }
  }

  /** The inline entries number exactly as many as the comma-separated pieces. */
  function PieceCount(cells: seq<string>): nat
  {
    if |cells| == 0 then 0 else PieceCount(cells[..|cells| - 1]) + |Split(cells[|cells| - 1], ",")|
  }

  lemma {:induction false} InlineEntriesCount(cells: seq<string>)
    ensures |InlineEntries(cells)| == PieceCount(cells)
  {
    if |cells| != 0 {
      InlineEntriesCount(cells[..|cells| - 1]);
    }
  }
}
