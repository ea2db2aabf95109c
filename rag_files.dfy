/** The two parsers of the RAG file generators (helpers/generate_rag_files.py and its
    read-only twin, which share these lines): the "key: value" metric-definition blocks of
    `cellcli -e list metricdefinition detail`, and the normaliser of `describe` lines. */
module RagFiles {
  import opened Text
  import opened Wrappers

  /** A Python dict with string keys and values: its entries in first-insertion order. */
  type Dict = seq<(string, string)>

  predicate UniqueKeys(d: Dict)
  {
    forall i, j :: 0 <= i < j < |d| ==> d[i].0 != d[j].0
  }

  /** The position of key `k`, or `|d|` when it is absent. */
  function Find(d: Dict, k: string): (i: nat)
    ensures i <= |d|
    ensures i < |d| ==> d[i].0 == k
    ensures forall j :: 0 <= j < i ==> d[j].0 != k
  {
    if |d| == 0 then 0 else if d[0].0 == k then 0 else 1 + Find(d[1..], k)
  }

  /** `d[k]`, or nothing for a missing key. */
  function Lookup(d: Dict, k: string): Option<string>
  {
    var i := Find(d, k);
    if i < |d| then Some(d[i].1) else None
  }

  /** `d[k] = v`: an existing key keeps its place and takes the new value; a new key goes last. */
  function Assign(d: Dict, k: string, v: string): Dict
  {
    var i := Find(d, k);
    if i < |d| then d[i := (k, v)] else d + [(k, v)]
  }

  /** Assignment keeps the keys unique and in place, maps `k` to `v`, and leaves every other
      key's value alone. */
  lemma AssignLookup(d: Dict, k: string, v: string)
    requires UniqueKeys(d)
    ensures var d' := Assign(d, k, v);
      UniqueKeys(d') && Lookup(d', k) == Some(v)
      && |d| <= |d'| <= |d| + 1 && (forall j :: 0 <= j < |d| ==> d'[j].0 == d[j].0)
      && (forall k' :: k' != k ==> Lookup(d', k') == Lookup(d, k'))
  {
    var d' := Assign(d, k, v);
    assert forall j :: 0 <= j < |d| ==> d'[j].0 == d[j].0;
    assert UniqueKeys(d');
    var j := Find(d, k);
    assert d'[if j < |d| then j else |d|] == (k, v);
    FindAssigned(d', k, v);
    forall k' | k' != k ensures Lookup(d', k') == Lookup(d, k') {
      SameFind(d, d', k');
    }
  }

  /** The assigned key is found at its entry. */
  lemma FindAssigned(d': Dict, k: string, v: string)
    requires UniqueKeys(d') && exists j :: 0 <= j < |d'| && d'[j] == (k, v)
    ensures Lookup(d', k) == Some(v)
  {
    var j :| 0 <= j < |d'| && d'[j] == (k, v);
    assert Find(d', k) == j;
  }

  /** A key other than the assigned one is found at the same place, with the same value. */
  lemma SameFind(d: Dict, d': Dict, k': string)
    requires |d| <= |d'| && forall j :: 0 <= j < |d| ==> d'[j].0 == d[j].0
    requires forall j :: 0 <= j < |d'| && d'[j].0 == k' ==> j < |d| && d'[j] == d[j]
    ensures Lookup(d', k') == Lookup(d, k')
  {
    var i := Find(d, k');
    var i' := Find(d', k');
    if i < |d| {
      assert d'[i].0 == k';
    }
    if i' < |d'| {
      assert i' < |d|;
      assert i == i';
    }
  }

  /** One "key: value" line: the key is the text before the first colon, stripped; the value
      is the rest, stripped of whitespace and then of double quotes. */
  function LinePair(line: string): (string, string)
    requires ':' in line
  {
    var c := IndexOf(line, ':');
    (Strip(line[..c]), Trim(Strip(line[c + 1..]), IsQuote))
  }

  predicate IsQuote(c: char) { c == '"' }

  /** Only the first colon separates: any further colons stay in the value. */
  lemma LinePairSplit(key: string, value: string)
    requires ':' !in key
    ensures ':' in key + ":" + value
    ensures LinePair(key + ":" + value) == (Strip(key), Trim(Strip(value), IsQuote))
  {
    ColonAfterKey(key, value);
  }

  /** In "key:value" with no colon in the key, the first colon follows the key. */
  lemma ColonAfterKey(key: string, value: string)
    requires ':' !in key
    ensures var line := key + ":" + value;
      ':' in line && IndexOf(line, ':') == |key| && line[..|key|] == key && line[|key| + 1..] == value
  {
    var line := key + ":" + value;
    assert line[|key|] == ':';
    assert line[..|key|] == key;
    assert line[|key| + 1..] == value;
  }

  /** The (key, value) pairs of the lines that hold a colon, in order. */
  function Pairs(lines: seq<string>): seq<(string, string)>
  {
    if |lines| == 0 then []
    else
      var last := lines[|lines| - 1];
      Pairs(lines[..|lines| - 1]) + (if ':' in last then [LinePair(last)] else [])
  }

  /** The dict built by assigning the pairs one after another. */
  function AssignAll(pairs: seq<(string, string)>): Dict
  {
    if |pairs| == 0 then []
    else
      var last := pairs[|pairs| - 1];
      Assign(AssignAll(pairs[..|pairs| - 1]), last.0, last.1)
  }

  lemma AssignAllSnoc(pairs: seq<(string, string)>, x: (string, string))
    ensures AssignAll(pairs + [x]) == Assign(AssignAll(pairs), x.0, x.1)
  {
    assert (pairs + [x])[..|pairs|] == pairs;
  }

  /** The value of the last pair with key `k`. */
  function LastValue(pairs: seq<(string, string)>, k: string): Option<string>
  {
    if |pairs| == 0 then None
    else if pairs[|pairs| - 1].0 == k then Some(pairs[|pairs| - 1].1)
    else LastValue(pairs[..|pairs| - 1], k)
  }

  /** A later duplicate key overwrites an earlier one: the dict maps each key to the value of
      its last pair, holds each key once, and holds nothing else. */
  lemma {:induction false} AssignAllLastWins(pairs: seq<(string, string)>)
    ensures UniqueKeys(AssignAll(pairs))
    ensures forall k :: Lookup(AssignAll(pairs), k) == LastValue(pairs, k)
  {
    if |pairs| != 0 {
      var p := pairs[..|pairs| - 1];
      var last := pairs[|pairs| - 1];
      AssignAllLastWins(p);
      AssignLookup(AssignAll(p), last.0, last.1);
    }
  }

  /** The dict is empty exactly when there are no pairs. */
  lemma AssignAllEmpty(pairs: seq<(string, string)>)
    ensures |AssignAll(pairs)| == 0 <==> |pairs| == 0
  {
    if |pairs| != 0 {
      var p := pairs[..|pairs| - 1];
      var last := pairs[|pairs| - 1];
      AssignAllLastWins(p);
      AssignLookup(AssignAll(p), last.0, last.1);
    }
  }

  /** There are no pairs exactly when no line holds a colon. */
  lemma {:induction false} PairsEmpty(lines: seq<string>)
    ensures |Pairs(lines)| == 0 <==> forall i :: 0 <= i < |lines| ==> ':' !in lines[i]
  {
    if |lines| != 0 {
      var p := lines[..|lines| - 1];
      PairsEmpty(p);
      if |Pairs(lines)| == 0 {
        forall i | 0 <= i < |lines| ensures ':' !in lines[i] {
          if i < |p| {
            assert lines[i] == p[i];
          }
        }
      }
    }
  }

  /** The lines of one block. */
  function BlockLines(block: string): seq<string>
  {
    Split(Strip(block), "\n")
  }

  /** The metric one block describes. */
  function BlockMetric(block: string): Dict
  {
    AssignAll(Pairs(BlockLines(block)))
  }

  lemma PairsStep(lines: seq<string>, i: nat)
    requires i < |lines|
    ensures Pairs(lines[..i + 1]) == Pairs(lines[..i]) + (if ':' in lines[i] then [LinePair(lines[i])] else [])
  {
    assert lines[..i + 1][..i] == lines[..i];
  }

  /** The per-block loop: every colon line assigns its key. */
  method ParseBlock(block: string) returns (metric: Dict)
    ensures metric == BlockMetric(block)
  {
    var lines := Split(Strip(block), "\n");
    metric := ParseLines(lines);
  }

  /** The loop over a block's lines. */
  method ParseLines(lines: seq<string>) returns (metric: Dict)
    ensures metric == AssignAll(Pairs(lines))
  {
    metric := [];
    var i := 0;
    while i < |lines|
      invariant Parsed(lines, i, metric)
    {
      var line := lines[i];
      ghost var before := metric;
      ghost var pair := ("", "");
      if ':' in line {
        var c := IndexOf(line, ':');
        var key := line[..c];
        var value := line[c + 1..];
        value := Trim(Strip(value), IsQuote);
        metric := Assign(metric, Strip(key), value);
        pair := (Strip(key), value);
        SplitLine(line, c, pair);
      }
      ParseStep(lines, i, before, metric, pair);
      i := i + 1;
    }
    assert lines[..i] == lines;
    assert Parsed(lines, i, metric);
  }

  /** `line.split(':', 1)`, the key stripped and the value stripped of whitespace and quotes. */
  lemma SplitLine(line: string, c: nat, pair: (string, string))
    requires ':' in line && c == IndexOf(line, ':') && c < |line|
    requires pair == (Strip(line[..c]), Trim(Strip(line[c + 1..]), IsQuote))
    ensures pair == LinePair(line)
  {
  }

  /** The first `i` lines have been parsed into `metric`. */
  predicate Parsed(lines: seq<string>, i: nat, metric: Dict)
  {
    i <= |lines| && metric == AssignAll(Pairs(lines[..i]))
  }

  /** One more line: a colon line assigns its pair, any other line changes nothing. */
  lemma ParseStep(lines: seq<string>, i: nat, metric: Dict, metric': Dict, pair: (string, string))
    requires i < |lines| && Parsed(lines, i, metric)
    requires ':' in lines[i] ==> pair == LinePair(lines[i]) && metric' == Assign(metric, pair.0, pair.1)
    requires ':' !in lines[i] ==> metric' == metric
    ensures Parsed(lines, i + 1, metric')
  {
    PairsStep(lines, i);
    if ':' in lines[i] {
      AssignAllSnoc(Pairs(lines[..i]), pair);
      assert Pairs(lines[..i + 1]) == Pairs(lines[..i]) + [pair];
    } else {
      assert Pairs(lines[..i + 1]) == Pairs(lines[..i]);
    }
  }

  /** The blocks: the non-blank pieces of the output, split on blank lines, after every
      "<node>: " prefix dcli adds has been removed and the whole stripped. */
  function Blocks(output: string, node: string): seq<string>
  {
    NonBlank(Split(Strip(Replace(output, node + ": ", "")), "\n\n"))
  }

  /** The pieces that are not all whitespace, in order. */
  function NonBlank(pieces: seq<string>): seq<string>
  {
    Keep(pieces, HasText)
  }

  /** `b.strip()` is truthy. */
  predicate HasText(b: string)
  {
    Strip(b) != ""
  }

  /** The blocks are exactly the non-blank pieces. */
  lemma NonBlankPieces(pieces: seq<string>)
    ensures forall b :: b in NonBlank(pieces) <==> b in pieces && Strip(b) != ""
  {
    KeepMembers(pieces, HasText);
  }

  /** Blocks keep their order: they are the pieces at strictly increasing positions, and those
      positions are exactly the pieces that are not all whitespace. */
  lemma NonBlankInOrder(pieces: seq<string>)
    ensures var blocks := NonBlank(pieces); var idx := KeptIndices(pieces, HasText);
      |idx| == |blocks| <= |pieces|
      && (forall j :: 0 <= j < |idx| ==> idx[j] < |pieces| && blocks[j] == pieces[idx[j]])
      && (forall i, j :: 0 <= i < j < |idx| ==> idx[i] < idx[j])
      && (forall k :: 0 <= k < |pieces| ==> (k in idx <==> Strip(pieces[k]) != ""))
  {
    KeepInOrder(pieces, HasText);
  }

  /** The prefix removal deletes exactly the occurrences `replace` finds: the text between them
      is kept, in order. */
  lemma PrefixRemoval(output: string, node: string)
    ensures Replace(output, node + ": ", "") == Concat(Split(output, node + ": "))
  {
    ReplaceIsJoinOfSplit(output, node + ": ", "");
    JoinEmptyIsConcat(Split(output, node + ": "));
  }

  lemma {:induction false} JoinEmptyIsConcat(parts: seq<string>)
    requires |parts| >= 1
    ensures Join(parts, "") == Concat(parts)
  {
    if |parts| > 1 {
      JoinEmptyIsConcat(parts[..|parts| - 1]);
      assert parts[..|parts| - 1] + [parts[|parts| - 1]] == parts;
      JoinSnoc(parts[..|parts| - 1], parts[|parts| - 1], "");
      ConcatSnoc(parts[..|parts| - 1], parts[|parts| - 1]);
    } else {
      assert parts[1..] == [];
    }
  }

  /** The metrics of the blocks that yield at least one pair, in block order. */
  function MetricsOf(blocks: seq<string>): seq<Dict>
  {
    if |blocks| == 0 then []
    else
      var last := BlockMetric(blocks[|blocks| - 1]);
      MetricsOf(blocks[..|blocks| - 1]) + (if |last| > 0 then [last] else [])
  }

  lemma MetricsOfStep(blocks: seq<string>, i: nat)
    requires i < |blocks|
    ensures var m := BlockMetric(blocks[i]);
      MetricsOf(blocks[..i + 1]) == MetricsOf(blocks[..i]) + (if |m| > 0 then [m] else [])
  {
    assert blocks[..i + 1][..i] == blocks[..i];
  }

  /** The metric-definition file: one metric per block that has a colon line. */
  method MetricDefinitions(output: string, node: string) returns (metrics: seq<Dict>)
    ensures metrics == MetricsOf(Blocks(output, node))
  {
    var dcliOutput := Replace(output, node + ": ", "");
    var blocks := NonBlank(Split(Strip(dcliOutput), "\n\n"));
    metrics := [];
    var i := 0;
    while i < |blocks|
      invariant 0 <= i <= |blocks|
      invariant metrics == MetricsOf(blocks[..i])
    {
      MetricsOfStep(blocks, i);
      var metric := ParseBlock(blocks[i]);
      if |metric| > 0 {
        metrics := metrics + [metric];
      }
      i := i + 1;
    }
    assert blocks[..i] == blocks;
  }

  /** A block gives no metric exactly when none of its lines holds a colon; the metrics
      are at most one per block, none empty. */
  lemma BlockWithoutColon(block: string)
    ensures |BlockMetric(block)| == 0 <==> forall i :: 0 <= i < |BlockLines(block)| ==> ':' !in BlockLines(block)[i]
  {
    AssignAllEmpty(Pairs(BlockLines(block)));
    PairsEmpty(BlockLines(block));
  }

  lemma {:induction false} MetricsOfBlocks(blocks: seq<string>)
    ensures |MetricsOf(blocks)| <= |blocks|
    ensures forall j :: 0 <= j < |MetricsOf(blocks)| ==> |MetricsOf(blocks)[j]| > 0 && UniqueKeys(MetricsOf(blocks)[j])
  {
    if |blocks| != 0 {
      var b := blocks[|blocks| - 1];
      var m := BlockMetric(b);
      var front := MetricsOf(blocks[..|blocks| - 1]);
      MetricsOfBlocks(blocks[..|blocks| - 1]);
      AssignAllLastWins(Pairs(BlockLines(b)));
      assert MetricsOf(blocks) == front + (if |m| > 0 then [m] else []);
      KeptMetricSnoc(front, m);
    }
  }

  /** Adding a metric, kept only when non-empty, keeps every metric non-empty with unique keys. */
  lemma KeptMetricSnoc(ms: seq<Dict>, m: Dict)
    requires forall j :: 0 <= j < |ms| ==> |ms[j]| > 0 && UniqueKeys(ms[j])
    requires UniqueKeys(m)
    ensures var r := ms + (if |m| > 0 then [m] else []);
      forall j :: 0 <= j < |r| ==> |r[j]| > 0 && UniqueKeys(r[j])
  {
  }

  /** One line of a `describe` listing: "name [modifiable] [hidden] description" becomes
      "name: description" (or just "name"); "Attributes for" headings and empty lines pass
      through. A line of whitespace only has no name and raises IndexError: `None`. */
  function Rewrite(line: string): Option<string>
  {
    if StartsWith(line, "Attributes for") || |line| == 0 then Some(line)
    else
      var parts := SplitWsOnce(line);
      if |parts| == 0 then None else Some(NameAndDescription(parts))
  }

  /** The name, then ": " and the description without its flags when one is left. */
  function NameAndDescription(parts: seq<string>): string
    requires |parts| > 0
  {
    if |parts| == 1 then parts[0]
    else
      var rest := DropFlag(DropFlag(parts[1], "modifiable", 11), "hidden", 6);
      if |rest| > 0 then parts[0] + ": " + rest else parts[0]
  }

  /** `s[n:].strip()` when `s` starts with `flag`, else `s`. */
  function DropFlag(s: string, flag: string, n: nat): string
  {
    if StartsWith(s, flag) then Strip(if n <= |s| then s[n..] else "") else s
  }

  /** The loop body: `parts[1]` and `line` reassigned step by step. */
  method RewriteLine(line0: string) returns (r: Option<string>)
    ensures r == Rewrite(line0)
  {
    var line := line0;
    if !StartsWith(line, "Attributes for") && !(|line| == 0) {
      var parts := SplitWsOnce(line);
      if |parts| == 0 {
        return None;
      }
      if |parts| > 1 {
        var rest := parts[1];
        if StartsWith(rest, "modifiable") {
          rest := Strip(if 11 <= |rest| then rest[11..] else "");
        }
        ghost var once := rest;
        if StartsWith(rest, "hidden") {
          rest := Strip(if 6 <= |rest| then rest[6..] else "");
        }
        DroppedFlags(parts[1], once, rest);
        if |rest| > 0 {
          line := parts[0] + ": " + rest;
        } else {
          line := parts[0];
        }
      } else {
        line := parts[0];
      }
    }
    return Some(line);
  }

  /** The two reassignments of `parts[1]` drop the "modifiable" and then the "hidden" flag. */
  lemma DroppedFlags(s: string, once: string, rest: string)
    requires once == if StartsWith(s, "modifiable") then Strip(if 11 <= |s| then s[11..] else "") else s
    requires rest == if StartsWith(once, "hidden") then Strip(if 6 <= |once| then once[6..] else "") else once
    ensures rest == DropFlag(DropFlag(s, "modifiable", 11), "hidden", 6)
  {
  }

  /** Headings and empty lines are kept as they are. */
  lemma RewriteKeepsHeadings(line: string)
    requires StartsWith(line, "Attributes for") || line == ""
    ensures Rewrite(line) == Some(line)
  {
  }

  /** Only a non-empty line of whitespace fails. */
  lemma RewriteFails(line: string)
    ensures Rewrite(line).None? <==> |line| > 0 && AllSpace(line)
  {
    if StartsWith(line, "Attributes for") {
      assert line[0] == line[..14][0] == 'A';
    } else {
      SplitWsOnceEmpty(line);
    }
  }

  /** A described attribute becomes its name, or its name, ": " and a non-empty description
      without leading whitespace. */
  lemma RewriteShape(line: string)
    requires !StartsWith(line, "Attributes for") && !AllSpace(line)
    ensures Rewrite(line).Some?
    ensures var name := SplitWsOnce(line)[0];
      var r := Rewrite(line).value;
      IsToken(name)
      && (r == name || (StartsWith(r, name + ": ") && |r| > |name| + 2 && !IsSpace(r[|name| + 2])))
  {
    SplitWsOnceEmpty(line);
    SplitWsOnceHead(line);
    SplitWsOnceTail(line);
    var parts := SplitWsOnce(line);
    assert |line| != 0;
    DescriptionShape(parts);
  }

  /** The shape of a rewritten line, from the shape of its two parts. */
  lemma DescriptionShape(parts: seq<string>)
    requires 0 < |parts| <= 2
    requires |parts| == 2 ==> |parts[1]| > 0 && !IsSpace(parts[1][0])
    ensures var name, r := parts[0], NameAndDescription(parts);
      r == name || (StartsWith(r, name + ": ") && |r| > |name| + 2 && !IsSpace(r[|name| + 2]))
  {
    if |parts| == 2 {
      var rest := DropFlag(DropFlag(parts[1], "modifiable", 11), "hidden", 6);
      if |rest| > 0 {
        DropFlagLeads(parts[1], "modifiable", 11);
        DropFlagLeads(DropFlag(parts[1], "modifiable", 11), "hidden", 6);
        Described(parts[0], rest);
      }
    }
  }

  /** "name: description" starts with the name and ": ", then the description's first character. */
  lemma Described(name: string, rest: string)
    requires |rest| > 0 && !IsSpace(rest[0])
    ensures var r := name + ": " + rest;
      StartsWith(r, name + ": ") && |r| > |name| + 2 && !IsSpace(r[|name| + 2])
  {
    var r := name + ": " + rest;
    assert r[..|name + ": "|] == name + ": ";
    assert r[|name| + 2] == rest[0];
  }

  /** Dropping a flag leaves a string that, if non-empty, does not start with whitespace
      (provided the input did not). */
  lemma DropFlagLeads(s: string, flag: string, n: nat)
    requires |s| == 0 || !IsSpace(s[0])
    ensures var t := DropFlag(s, flag, n); |t| == 0 || !IsSpace(t[0])
  {
  }

  /** A description without flags is kept verbatim. */
  lemma RewriteKeepsDescription(line: string)
    requires !StartsWith(line, "Attributes for") && |SplitWsOnce(line)| == 2
    requires !StartsWith(SplitWsOnce(line)[1], "modifiable") && !StartsWith(SplitWsOnce(line)[1], "hidden")
    ensures Rewrite(line) == Some(SplitWsOnce(line)[0] + ": " + SplitWsOnce(line)[1])
  {
    SplitWsOnceTail(line);
  }

  /** The rewritten lines, or `None` at the first line that raises. */
  function RewriteAll(lines: seq<string>): Option<seq<string>>
  {
    MapAll(lines, Rewrite)
  }

  /** Every line through `f`, or `None` when `f` fails on one of them. */
  function MapAll(lines: seq<string>, f: string -> Option<string>): Option<seq<string>>
  {
    if |lines| == 0 then Some([])
    else
      var front := MapAll(lines[..|lines| - 1], f);
      var last := f(lines[|lines| - 1]);
      if front.None? || last.None? then None else Some(front.value + [last.value])
  }

  /** One output line per input line, each the rewrite of its input; or an IndexError when
      some line is whitespace only. */
  lemma RewriteAllLines(lines: seq<string>)
    ensures var r := RewriteAll(lines);
      match r
      case None => exists i :: 0 <= i < |lines| && Rewrite(lines[i]).None?
      case Some(out) =>
        |out| == |lines| && forall i :: 0 <= i < |lines| ==> Rewrite(lines[i]) == Some(out[i])
  {
    MapAllLines(lines, Rewrite);
  }

  lemma {:induction false} MapAllLines(lines: seq<string>, f: string -> Option<string>)
    ensures var r := MapAll(lines, f);
      match r
      case None => exists i :: 0 <= i < |lines| && f(lines[i]).None?
      case Some(out) =>
        |out| == |lines| && forall i :: 0 <= i < |lines| ==> f(lines[i]) == Some(out[i])
  {
    if |lines| != 0 {
      var p := lines[..|lines| - 1];
      MapAllLines(p, f);
      if MapAll(p, f).None? {
        var i :| 0 <= i < |p| && f(p[i]).None?;
        assert lines[i] == p[i];
      } else if MapAll(lines, f).Some? {
        var out := MapAll(lines, f).value;
        forall i | 0 <= i < |lines| ensures f(lines[i]) == Some(out[i]) {
          if i < |p| {
            assert lines[i] == p[i];
          }
        }
      }
    }
  }

  lemma RewriteAllStep(lines: seq<string>, i: nat)
    requires i < |lines|
    ensures var front := RewriteAll(lines[..i]);
      var last := Rewrite(lines[i]);
      RewriteAll(lines[..i + 1]) == if front.None? || last.None? then None else Some(front.value + [last.value])
  {
    assert lines[..i + 1][..i] == lines[..i];
  }

  /** The describe file: the stripped output's lines, each rewritten. */
  method DescribeFile(output: string, node: string) returns (r: Option<seq<string>>)
    ensures r == RewriteAll(Split(Strip(Replace(output, node + ": ", "")), "\n"))
  {
    var dcliOutput := Replace(output, node + ": ", "");
    var lines := Split(Strip(dcliOutput), "\n");
    var out: seq<string> := [];
    var i := 0;
    while i < |lines|
      invariant 0 <= i <= |lines|
      invariant RewriteAll(lines[..i]) == Some(out)
    {
      RewriteAllStep(lines, i);
      var line := RewriteLine(lines[i]);
      if line.None? {
        RewriteAllNone(lines, i + 1);
        return None;
      }
      out := out + [line.value];
      i := i + 1;
    }
    assert lines[..i] == lines;
    return Some(out);
  }

  /** Once a line raises, so does the whole file. */
  lemma {:induction false} RewriteAllNone(lines: seq<string>, k: nat)
    requires k <= |lines| && RewriteAll(lines[..k]).None?
    ensures RewriteAll(lines).None?
    decreases |lines|
  {
    if k < |lines| {
      var p := lines[..|lines| - 1];
      assert p[..k] == lines[..k];
      RewriteAllNone(p, k);
    } else {
      assert lines[..k] == lines;
    }
  }
}
