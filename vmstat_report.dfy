/** The --vmstat table (dcli's listVmstatLine and listVmstatResults): the last line of every
    host's vmstat output, aligned in columns at least as wide as the widest value, followed by
    per-column Minimum, Maximum and Average rows when more than one host reported. */
module VmstatReport {
  import opened Text
  import opened Wrappers
  import opened Vmstat
  import opened HostList

  /** Minimum widths of the six groups of the first vmstat header line. */
  const Header1Widths: seq<int> := [5, 27, 9, 11, 11, 14]

  /** Minimum widths of the 17 vmstat columns. */
  const DefaultWidths: seq<int> := [2, 2, 6, 6, 6, 6, 4, 4, 5, 5, 5, 5, 2, 2, 2, 2, 2]

  // ---------------------------------------------------------------------------------------
  // One aligned line

  /** The values right-justified to their widths, each followed by a space. */
  function Fields(widths: seq<int>, values: seq<string>): string
    requires |values| <= |widths|
  {
    if |values| == 0 then "" else RJust(values[0], widths[0]) + " " + Fields(widths[1..], values[1..])
  }

  /** listVmstatLine: `None` where a value has no width (`widths[i]` raises IndexError). */
  function Row(widths: seq<int>, values: seq<string>): Option<string>
  {
    if |values| <= |widths| then Some(Fields(widths, values)) else None
  }

  lemma {:induction false} FieldsSnoc(widths: seq<int>, values: seq<string>, k: nat)
    requires k < |values| && k < |widths|
    ensures Fields(widths, values[..k + 1]) == Fields(widths, values[..k]) + (RJust(values[k], widths[k]) + " ")
  {
    if k > 0 {
      var v1 := values[1..];
      assert values[..k + 1][1..] == v1[..k];
      assert values[..k][1..] == v1[..k - 1];
      FieldsSnoc(widths[1..], v1, k - 1);
      assert v1[k - 1] == values[k] && widths[1..][k - 1] == widths[k];
      AppendAfterHead(Fields(widths, values[..k + 1]), Fields(widths, values[..k]),
                      RJust(values[0], widths[0]) + " ", Fields(widths[1..], v1[..k]),
                      Fields(widths[1..], v1[..k - 1]), RJust(values[k], widths[k]) + " ");
    } else {
      assert values[..1][1..] == [];
    }
  }

  lemma AppendAfterHead(long: string, short: string, head: string, tail: string, f: string, cell: string)
    requires long == head + tail && short == head + f && tail == f + cell
    ensures long == short + cell
  {
  }

  /** listVmstatLine's loop. */
  method ListVmstatLine(widths: seq<int>, values: seq<string>) returns (r: Option<string>)
    ensures r == Row(widths, values)
  {
    var result := "";
    var i := 0;
    while i < |values|
      invariant 0 <= i <= |values|
      invariant i <= |widths| && result == Fields(widths, values[..i])
    {
      if i >= |widths| {
        return None;
      }
      FieldsSnoc(widths, values, i);
      result := result + RJust(values[i], widths[i]) + " ";
      i := i + 1;
    }
    assert values[..i] == values;
    return Some(result);
  }

  /** Padding, a token and a space, then more: `split()` finds the token first. */
  lemma SplitWsField(pad: string, tok: string, rest: string)
    requires AllSpace(pad) && IsToken(tok)
    ensures SplitWs(pad + tok + " " + rest) == [tok] + SplitWs(rest)
  {
    var spaced := " " + rest;
    PaddedTokenFirst(pad, tok, spaced);
    SplitWsLeadingSpace(rest);
    AppendAssoc(pad + tok, " ", rest);
  }

  lemma AppendAssoc(a: string, b: string, c: string)
    ensures a + b + c == a + (b + c)
  {
  }

  /** Padding, a token and then text starting with a space: the token is the first piece. */
  lemma PaddedTokenFirst(pad: string, tok: string, rest: string)
    requires AllSpace(pad) && IsToken(tok) && |rest| > 0 && IsSpace(rest[0])
    ensures SplitWs(pad + tok + rest) == [tok] + SplitWs(rest)
  {
    var t := tok + rest;
    var x := pad + t;
    assert x == pad + tok + rest;
    assert LStrip(x) == t by {
      LStripSpaces(pad, t);
      assert LStrip(t) == t;
    }
    TokenLenOfToken(tok, rest);
    SplitWsFirst(x, tok, rest);
  }

  /** When `lstrip` leaves a token and then whitespace, the token is the first piece. */
  lemma SplitWsFirst(x: string, tok: string, rest: string)
    requires |tok| > 0 && LStrip(x) == tok + rest && TokenLen(tok + rest) == |tok|
    ensures SplitWs(x) == [tok] + SplitWs(rest)
  {
    var t := LStrip(x);
    assert t[..|tok|] == tok;
    assert t[|tok|..] == rest;
  }

  lemma SplitWsLeadingSpace(rest: string)
    ensures SplitWs(" " + rest) == SplitWs(rest)
  {
    LStripSpaces(" ", rest);
  }

  /** Leading whitespace does not change what `lstrip` returns. */
  lemma {:induction false} LStripSpaces(pad: string, x: string)
    requires AllSpace(pad)
    ensures LStrip(pad + x) == LStrip(x)
  {
    if |pad| > 0 {
      assert (pad + x)[1..] == pad[1..] + x;
      LStripSpaces(pad[1..], x);
    } else {
      assert pad + x == x;
    }
  }

  /** A token followed by whitespace is read whole. */
  lemma {:induction false} TokenLenOfToken(tok: string, rest: string)
    requires IsToken(tok) && |rest| > 0 && IsSpace(rest[0])
    ensures TokenLen(tok + rest) == |tok|
  {
    if |tok| > 1 {
      assert (tok + rest)[1..] == tok[1..] + rest;
      TokenLenOfToken(tok[1..], rest);
    } else {
      assert (tok + rest)[1..] == rest;
    }
  }

  /** The aligned line splits back into the values: alignment never merges or breaks a value. */
  lemma {:induction false} FieldsRoundTrip(widths: seq<int>, values: seq<string>)
    requires |values| <= |widths|
    requires forall k :: 0 <= k < |values| ==> IsToken(values[k])
    ensures SplitWs(Fields(widths, values)) == values
  {
    if |values| == 0 {
      assert LStrip("") == "";
    } else {
      var r := RJust(values[0], widths[0]);
      RJustShape(values[0], widths[0]);
      var pad := r[..|r| - |values[0]|];
      assert r == pad + values[0];
      FieldsRoundTrip(widths[1..], values[1..]);
      SplitWsField(pad, values[0], Fields(widths[1..], values[1..]));
      assert values == [values[0]] + values[1..];
    }
  }

  // ---------------------------------------------------------------------------------------
  // The per-column statistics

  /** The four lists listVmstatResults updates in place. */
  datatype Columns = Columns(minValues: seq<int>, maxValues: seq<int>, total: seq<int>, widths: seq<int>)

  const Initial: Columns := Columns([], [], [], DefaultWidths)

  /** The minimum at index `i` after seeing `v`: a new entry (Python's `insert` at or past the
      end appends), or the smaller of the two. */
  function LowerAt(xs: seq<int>, i: nat, v: int): seq<int>
  {
    if |xs| <= i then xs + [v] else if xs[i] > v then xs[i := v] else xs
  }

  function HigherAt(xs: seq<int>, i: nat, v: int): seq<int>
  {
    if |xs| <= i then xs + [v] else if xs[i] < v then xs[i := v] else xs
  }

  /** One token at index `i` of a host's last line. Tokens that are not integers are skipped;
      `None` is the IndexError `total[i]` or `fieldWidths[i]` raises when a list is shorter
      than `i` (after a skipped token past the end of a list). */
  function AddToken(c: Columns, i: nat, tok: string): Option<Columns>
  {
    var n := ParseInt(tok);
    if n.None? then Some(c)
    else
      var v := n.value;
      var total := if |c.total| <= i then c.total + [0] else c.total;
      if i >= |total| then None
      else
        var total' := total[i := total[i] + v];
        var c' := Columns(LowerAt(c.minValues, i, v), HigherAt(c.maxValues, i, v), total', c.widths);
        if |c.widths| == i then Some(c'.(widths := c.widths + [|tok|]))
        else if |c.widths| < i then None
        else Some(c'.(widths := if c.widths[i] < |tok| then c.widths[i := |tok|] else c.widths))
  }

  /** The first `k` tokens of one line. */
  function AddTokens(c: Columns, tokens: seq<string>, k: nat): Option<Columns>
    requires k <= |tokens|
  {
    if k == 0 then Some(c)
    else
      var front := AddTokens(c, tokens, k - 1);
      if front.None? then None else AddToken(front.value, k - 1, tokens[k - 1])
  }

  /** The hosts' last lines, in the output map's order. */
  function AddOutputs(c: Columns, outputs: seq<seq<string>>): Option<Columns>
  {
    if |outputs| == 0 then Some(c)
    else
      var front := AddOutputs(c, outputs[..|outputs| - 1]);
      var out := outputs[|outputs| - 1];
      if front.None? then None else AddLastLine(front.value, out)
  }

  /** One host: the tokens of its last output line; `None` is the IndexError of `output[-1]`
      on a host without output. */
  function AddLastLine(c: Columns, out: seq<string>): Option<Columns>
  {
    if |out| == 0 then None
    else
      var tokens := SplitWs(out[|out| - 1]);
      AddTokens(c, tokens, |tokens|)
  }

  /** The longest of the clock and the host names (the clock labels the second header line). */
  function MaxNameLen(clock: string, names: seq<string>): (w: nat)
    ensures w >= |clock|
    ensures forall k :: 0 <= k < |names| ==> w >= |names[k]|
    ensures w == |clock| || exists k :: 0 <= k < |names| && w == |names[k]|
  {
    if |names| == 0 then |clock|
    else
      var w := MaxNameLen(clock, names[..|names| - 1]);
      if w < |names[|names| - 1]| then |names[|names| - 1]| else w
  }

  lemma AddTokensStep(c: Columns, tokens: seq<string>, k: nat)
    requires k < |tokens|
    ensures var front := AddTokens(c, tokens, k);
      AddTokens(c, tokens, k + 1) == if front.None? then None else AddToken(front.value, k, tokens[k])
  {
  }

  lemma AddOutputsStep(c: Columns, outputs: seq<seq<string>>, k: nat)
    requires k < |outputs|
    ensures var front := AddOutputs(c, outputs[..k]);
      AddOutputs(c, outputs[..k + 1]) == if front.None? then None else AddLastLine(front.value, outputs[k])
  {
    assert outputs[..k + 1][..k] == outputs[..k];
  }

  lemma MaxNameLenStep(clock: string, names: seq<string>, k: nat)
    requires k < |names|
    ensures MaxNameLen(clock, names[..k + 1])
      == if MaxNameLen(clock, names[..k]) < |names[k]| then |names[k]| else MaxNameLen(clock, names[..k])
  {
    assert names[..k + 1][..k] == names[..k];
  }

  /** The accumulation loop of listVmstatResults over the output map (names and outputs in
      the map's order), with the lists updated in place. */
  method Accumulate(names: seq<string>, outputs: seq<seq<string>>, clock: string)
    returns (maxLenCellName: nat, r: Option<Columns>)
    requires |names| == |outputs|
    ensures r == AddOutputs(Initial, outputs)
    ensures r.Some? ==> maxLenCellName == MaxNameLen(clock, names)
  {
    var columns := Initial;
    maxLenCellName := |clock|;
    var h := 0;
    while h < |outputs|
      invariant 0 <= h <= |outputs|
      invariant AddOutputs(Initial, outputs[..h]) == Some(columns)
      invariant maxLenCellName == MaxNameLen(clock, names[..h])
    {
      MaxNameLenStep(clock, names, h);
      AddOutputsStep(Initial, outputs, h);
      if maxLenCellName < |names[h]| {
        maxLenCellName := |names[h]|;
      }
      var next := AccumulateHost(columns, outputs[h]);
      if next.None? {
        AddOutputsNone(Initial, outputs, h + 1);
        return maxLenCellName, None;
      }
      columns := next.value;
      h := h + 1;
    }
    assert outputs[..h] == outputs;
    assert names[..h] == names;
    return maxLenCellName, Some(columns);
  }

  /** One host: its last line (`output[-1]` raises on a host without output). */
  method AccumulateHost(c: Columns, output: seq<string>) returns (r: Option<Columns>)
    ensures r == AddLastLine(c, output)
  {
    if |output| == 0 {
      return None;
    }
    r := AccumulateLine(c, SplitWs(output[|output| - 1]));
  }

  /** The inner loop of listVmstatResults over the tokens of one host's last line. */
  method AccumulateLine(c: Columns, values: seq<string>) returns (r: Option<Columns>)
    ensures r == AddTokens(c, values, |values|)
  {
    var minvalues, maxvalues, total, fieldWidths := c.minValues, c.maxValues, c.total, c.widths;
    var i := 0;
    while i < |values|
      invariant 0 <= i <= |values|
      invariant AddTokens(c, values, i) == Some(Columns(minvalues, maxvalues, total, fieldWidths))
    {
      AddTokensStep(c, values, i);
      var v := values[i];
      var vInt := ParseInt(v);
      if vInt.Some? {
        if |minvalues| <= i {
          minvalues := minvalues + [vInt.value];
        } else if minvalues[i] > vInt.value {
          minvalues := minvalues[i := vInt.value];
        }
        if |maxvalues| <= i {
          maxvalues := maxvalues + [vInt.value];
        } else if maxvalues[i] < vInt.value {
          maxvalues := maxvalues[i := vInt.value];
        }
        if |total| <= i {
          total := total + [0];
        }
        if i >= |total| {
          AddTokensNone(c, values, i + 1);
          return None;
        }
        total := total[i := total[i] + vInt.value];
        if |fieldWidths| == i {
          fieldWidths := fieldWidths + [|v|];
        } else if |fieldWidths| < i {
          AddTokensNone(c, values, i + 1);
          return None;
        } else if fieldWidths[i] < |v| {
          fieldWidths := fieldWidths[i := |v|];
        }
      }
      i := i + 1;
    }
    return Some(Columns(minvalues, maxvalues, total, fieldWidths));
  }

  lemma {:induction false} AddTokensNone(c: Columns, tokens: seq<string>, k: nat)
    requires k <= |tokens| && AddTokens(c, tokens, k).None?
    ensures AddTokens(c, tokens, |tokens|).None?
    decreases |tokens| - k
  {
    if k < |tokens| {
      AddTokensNone(c, tokens, k + 1);
    }
  }

  lemma {:induction false} AddOutputsNone(c: Columns, outputs: seq<seq<string>>, k: nat)
    requires k <= |outputs| && AddOutputs(c, outputs[..k]).None?
    ensures AddOutputs(c, outputs).None?
    decreases |outputs|
  {
    if k < |outputs| {
      var p := outputs[..|outputs| - 1];
      assert p[..k] == outputs[..k];
      AddOutputsNone(c, p, k);
    } else {
      assert outputs[..k] == outputs;
    }
  }

  // ---------------------------------------------------------------------------------------
  // What the lists hold: per-column minimum, maximum, total and width

  /** The integer a token holds (0 for a token that holds none). */
  function Num(tok: string): int
  {
    match ParseInt(tok)
    case Some(v) => v
    case None => 0
  }

  predicate AllInts(tokens: seq<string>)
  {
    forall t :: t in tokens ==> ParseInt(t).Some?
  }

  /** Column `i` of the rows long enough to have one, top to bottom. */
  function Column(rows: seq<seq<string>>, i: nat): seq<int>
  {
    if |rows| == 0 then []
    else
      var last := rows[|rows| - 1];
      Column(rows[..|rows| - 1], i) + (if i < |last| then [Num(last[i])] else [])
  }

  /** The length of the longest row. */
  function Longest(rows: seq<seq<string>>): nat
  {
    if |rows| == 0 then 0
    else
      var l := Longest(rows[..|rows| - 1]);
      if l < |rows[|rows| - 1]| then |rows[|rows| - 1]| else l
  }

  /** The width of column `i`: its default, or its longest token. */
  function WidthOf(rows: seq<seq<string>>, i: nat): int
  {
    if |rows| == 0 then (if i < |DefaultWidths| then DefaultWidths[i] else 0)
    else
      var w := WidthOf(rows[..|rows| - 1], i);
      var last := rows[|rows| - 1];
      if i < |last| && w < |last[i]| then |last[i]| else w
  }

  function MinOf(xs: seq<int>): int
    requires |xs| > 0
  {
    if |xs| == 1 then xs[0]
    else
      var m := MinOf(xs[..|xs| - 1]);
      if m > xs[|xs| - 1] then xs[|xs| - 1] else m
  }

  function MaxOf(xs: seq<int>): int
    requires |xs| > 0
  {
    if |xs| == 1 then xs[0]
    else
      var m := MaxOf(xs[..|xs| - 1]);
      if m < xs[|xs| - 1] then xs[|xs| - 1] else m
  }

  function SumOf(xs: seq<int>): int
  {
    if |xs| == 0 then 0 else SumOf(xs[..|xs| - 1]) + xs[|xs| - 1]
  }

  /** The smallest value of column `i` (0 when no row reaches it). */
  function MinColumn(rows: seq<seq<string>>, i: nat): int
  {
    var col := Column(rows, i);
    if |col| == 0 then 0 else MinOf(col)
  }

  function MaxColumn(rows: seq<seq<string>>, i: nat): int
  {
    var col := Column(rows, i);
    if |col| == 0 then 0 else MaxOf(col)
  }

  /** What the four lists should hold after the rows: one minimum, maximum and total per column
      of the longest row, and a width per column, at least as many as the defaults. */
  function Expected(rows: seq<seq<string>>): Columns
  {
    var n := Longest(rows);
    Columns(seq(n, i requires 0 <= i => MinColumn(rows, i)),
            seq(n, i requires 0 <= i => MaxColumn(rows, i)),
            seq(n, i requires 0 <= i => SumOf(Column(rows, i))),
            seq(if n < |DefaultWidths| then |DefaultWidths| else n, i requires 0 <= i => WidthOf(rows, i)))
  }

  lemma RowsSnoc(rows: seq<seq<string>>, x: seq<string>, i: nat)
    ensures Column(rows + [x], i) == Column(rows, i) + (if i < |x| then [Num(x[i])] else [])
    ensures Longest(rows + [x]) == if Longest(rows) < |x| then |x| else Longest(rows)
    ensures WidthOf(rows + [x], i) == if i < |x| && WidthOf(rows, i) < |x[i]| then |x[i]| else WidthOf(rows, i)
  {
    assert (rows + [x])[..|rows|] == rows;
  }

  lemma MinMaxSnoc(xs: seq<int>, v: int)
    ensures MinOf(xs + [v]) == if |xs| == 0 || MinOf(xs) > v then v else MinOf(xs)
    ensures MaxOf(xs + [v]) == if |xs| == 0 || MaxOf(xs) < v then v else MaxOf(xs)
    ensures SumOf(xs + [v]) == SumOf(xs) + v
  {
    assert (xs + [v])[..|xs|] == xs;
  }

  lemma LongestAtLeast(rows: seq<seq<string>>, i: nat)
    requires |Column(rows, i)| > 0
    ensures i < Longest(rows)
  {
    if |rows| != 0 {
      var p := rows[..|rows| - 1];
      assert p + [rows[|rows| - 1]] == rows;
      RowsSnoc(p, rows[|rows| - 1], i);
      if |Column(p, i)| > 0 {
        LongestAtLeast(p, i);
      }
    }
  }

  lemma ColumnEmptyBeyond(rows: seq<seq<string>>, i: nat)
    requires Longest(rows) <= i
    ensures Column(rows, i) == []
  {
    if |Column(rows, i)| > 0 {
      LongestAtLeast(rows, i);
    }
  }

  /** An empty row changes nothing. */
  lemma EmptyRow(rows: seq<seq<string>>)
    ensures Expected(rows + [[]]) == Expected(rows)
  {
    var more := rows + [[]];
    forall i: nat ensures Column(more, i) == Column(rows, i) && WidthOf(more, i) == WidthOf(rows, i) {
      RowsSnoc(rows, [], i);
    }
    RowsSnoc(rows, [], 0);
    SameColumnsSameExpected(more, rows);
  }

  /** Rows with the same columns, widths and longest row are summed up alike. */
  lemma SameColumnsSameExpected(a: seq<seq<string>>, b: seq<seq<string>>)
    requires Longest(a) == Longest(b)
    requires forall i: nat :: Column(a, i) == Column(b, i) && WidthOf(a, i) == WidthOf(b, i)
    ensures Expected(a) == Expected(b)
  {
    assert forall i: nat :: MinColumn(a, i) == MinColumn(b, i) && MaxColumn(a, i) == MaxColumn(b, i);
  }

  /** How the reference definitions move when a token is added to the current row. */
  lemma LongestGrows(rows: seq<seq<string>>, p: seq<string>, tok: string)
    ensures Longest(rows + [p]) >= |p|
    ensures Longest(rows + [p + [tok]]) == if Longest(rows + [p]) <= |p| then |p| + 1 else Longest(rows + [p])
  {
    RowsSnoc(rows, p, 0);
    RowsSnoc(rows, p + [tok], 0);
  }

  lemma ColumnGrows(rows: seq<seq<string>>, p: seq<string>, tok: string, i: nat)
    ensures Column(rows + [p + [tok]], i)
      == if i == |p| then Column(rows + [p], i) + [Num(tok)] else Column(rows + [p], i)
    ensures WidthOf(rows + [p + [tok]], i)
      == if i == |p| && WidthOf(rows + [p], i) < |tok| then |tok| else WidthOf(rows + [p], i)
  {
    RowsSnoc(rows, p, i);
    RowsSnoc(rows, p + [tok], i);
    if i < |p| {
      assert (p + [tok])[i] == p[i];
    }
  }

  /** Column `|p|` before the token: empty when no row reached it. */
  lemma NewColumn(rows: seq<seq<string>>, p: seq<string>, tok: string)
    ensures var col := Column(rows + [p], |p|);
      (Longest(rows + [p]) <= |p| ==> col == []) && (|p| < Longest(rows + [p]) ==> |col| > 0)
      && MinOf(col + [Num(tok)]) == (if |col| == 0 || MinOf(col) > Num(tok) then Num(tok) else MinOf(col))
      && MaxOf(col + [Num(tok)]) == (if |col| == 0 || MaxOf(col) < Num(tok) then Num(tok) else MaxOf(col))
      && SumOf(col + [Num(tok)]) == SumOf(col) + Num(tok)
  {
    var col := Column(rows + [p], |p|);
    if Longest(rows + [p]) <= |p| {
      ColumnEmptyBeyond(rows + [p], |p|);
    } else {
      ColumnPresent(rows + [p], |p|);
    }
    MinMaxSnoc(col, Num(tok));
  }

  /** A column past the defaults that no row reached has width 0. */
  lemma {:induction false} WidthFresh(rows: seq<seq<string>>, i: nat)
    requires Longest(rows) <= i && |DefaultWidths| <= i
    ensures WidthOf(rows, i) == 0
  {
    if |rows| != 0 {
      var p := rows[..|rows| - 1];
      assert p + [rows[|rows| - 1]] == rows;
      RowsSnoc(p, rows[|rows| - 1], i);
      WidthFresh(p, i);
    }
  }

  lemma MinsStep(rows: seq<seq<string>>, p: seq<string>, tok: string)
    ensures |Expected(rows + [p]).minValues| >= |p|
    ensures LowerAt(Expected(rows + [p]).minValues, |p|, Num(tok)) == Expected(rows + [p + [tok]]).minValues
  {
    LongestGrows(rows, p, tok);
    NewColumn(rows, p, tok);
    var m0 := Expected(rows + [p]).minValues;
    var m1 := Expected(rows + [p + [tok]]).minValues;
    var lhs := LowerAt(m0, |p|, Num(tok));
    assert |lhs| == |m1|;
    forall i | 0 <= i < |m1| ensures lhs[i] == m1[i] {
      ColumnGrows(rows, p, tok, i);
    }
  }

  lemma MaxsStep(rows: seq<seq<string>>, p: seq<string>, tok: string)
    ensures HigherAt(Expected(rows + [p]).maxValues, |p|, Num(tok)) == Expected(rows + [p + [tok]]).maxValues
  {
    LongestGrows(rows, p, tok);
    NewColumn(rows, p, tok);
    var m0 := Expected(rows + [p]).maxValues;
    var m1 := Expected(rows + [p + [tok]]).maxValues;
    var lhs := HigherAt(m0, |p|, Num(tok));
    assert |lhs| == |m1|;
    forall i | 0 <= i < |m1| ensures lhs[i] == m1[i] {
      ColumnGrows(rows, p, tok, i);
    }
  }

  lemma TotalsStep(rows: seq<seq<string>>, p: seq<string>, tok: string)
    ensures var total := Expected(rows + [p]).total;
      |total| >= |p|
      && (if |total| == |p| then total + [Num(tok)] else total[|p| := total[|p|] + Num(tok)])
         == Expected(rows + [p + [tok]]).total
  {
    LongestGrows(rows, p, tok);
    NewColumn(rows, p, tok);
    forall i: nat ensures Column(rows + [p + [tok]], i)
      == if i == |p| then Column(rows + [p], i) + [Num(tok)] else Column(rows + [p], i)
    {
      ColumnGrows(rows, p, tok, i);
    }
    assert SumOf([]) == 0;
  }

  lemma WidthsStep(rows: seq<seq<string>>, p: seq<string>, tok: string)
    ensures var widths := Expected(rows + [p]).widths;
      |widths| >= |p|
      && (if |widths| == |p| then widths + [|tok|]
          else if widths[|p|] < |tok| then widths[|p| := |tok|] else widths)
         == Expected(rows + [p + [tok]]).widths
  {
    LongestGrows(rows, p, tok);
    forall i: nat ensures WidthOf(rows + [p + [tok]], i)
      == if i == |p| && WidthOf(rows + [p], i) < |tok| then |tok| else WidthOf(rows + [p], i)
    {
      ColumnGrows(rows, p, tok, i);
    }
    if |Expected(rows + [p]).widths| == |p| {
      WidthFresh(rows + [p], |p|);
    }
  }

  /** How adding integer token `tok` at index `i` takes the lists of `c` to those of `c'`:
      each list is extended at its end or updated at `i`. */
  predicate TokenMoves(c: Columns, c': Columns, i: nat, tok: string)
  {
    |c.total| >= i && |c.widths| >= i
    && c'.minValues == LowerAt(c.minValues, i, Num(tok))
    && c'.maxValues == HigherAt(c.maxValues, i, Num(tok))
    && c'.total == (if |c.total| == i then c.total + [Num(tok)] else c.total[i := c.total[i] + Num(tok)])
    && c'.widths == (if |c.widths| == i then c.widths + [|tok|]
                     else if c.widths[i] < |tok| then c.widths[i := |tok|] else c.widths)
  }

  /** An integer token at an index no list is short of: each list is extended or updated. */
  lemma AddTokenShape(c: Columns, c': Columns, i: nat, tok: string)
    requires ParseInt(tok).Some? && TokenMoves(c, c', i, tok)
    ensures AddToken(c, i, tok) == Some(c')
  {
    var v := ParseInt(tok).value;
    if |c.total| == i {
      assert (c.total + [0])[i := 0 + v] == c.total + [v];
    }
  }

  /** The reference definitions move as a token at the end of the current row says. */
  lemma ExpectedMoves(rows: seq<seq<string>>, p: seq<string>, tok: string)
    ensures TokenMoves(Expected(rows + [p]), Expected(rows + [p + [tok]]), |p|, tok)
  {
    TotalsStep(rows, p, tok);
    WidthsStep(rows, p, tok);
    MinsStep(rows, p, tok);
    MaxsStep(rows, p, tok);
  }

  /** One integer token at the end of the current row updates its column as the reference
      definitions say, and never raises. */
  lemma TokenStep(rows: seq<seq<string>>, p: seq<string>, tok: string)
    requires ParseInt(tok).Some?
    ensures AddToken(Expected(rows + [p]), |p|, tok) == Some(Expected(rows + [p + [tok]]))
  {
    ExpectedMoves(rows, p, tok);
    AddTokenShape(Expected(rows + [p]), Expected(rows + [p + [tok]]), |p|, tok);
  }

  /** A whole all-integer row. */
  lemma {:induction false} RowStep(rows: seq<seq<string>>, r: seq<string>, k: nat)
    requires AllInts(r) && k <= |r|
    ensures AddTokens(Expected(rows), r, k) == Some(Expected(rows + [r[..k]]))
  {
    if k == 0 {
      EmptyRow(rows);
      assert r[..0] == [];
    } else {
      RowStep(rows, r, k - 1);
      assert r[..k] == r[..k - 1] + [r[k - 1]];
      assert r[k - 1] in r;
      TokenStep(rows, r[..k - 1], r[k - 1]);
    }
  }

  /** A host's last line, split. */
  function LastRow(out: seq<string>): seq<string>
  {
    if |out| == 0 then [] else SplitWs(out[|out| - 1])
  }

  /** The last lines of the hosts, split. */
  function LastLines(outputs: seq<seq<string>>): (rows: seq<seq<string>>)
    ensures |rows| == |outputs|
  {
    if |outputs| == 0 then [] else LastLines(outputs[..|outputs| - 1]) + [LastRow(outputs[|outputs| - 1])]
  }

  lemma {:induction false} LastLinesAt(outputs: seq<seq<string>>, h: nat)
    requires h < |outputs|
    ensures LastLines(outputs)[h] == LastRow(outputs[h])
  {
    if h < |outputs| - 1 {
      LastLinesAt(outputs[..|outputs| - 1], h);
    }
  }

  /** The rows one after the other, each whole. */
  function AddRows(c: Columns, rows: seq<seq<string>>): Option<Columns>
  {
    if |rows| == 0 then Some(c)
    else
      var front := AddRows(c, rows[..|rows| - 1]);
      var last := rows[|rows| - 1];
      if front.None? then None else AddTokens(front.value, last, |last|)
  }

  /** When every host has output, the hosts add their split last lines. */
  lemma {:induction false} OutputsAsRows(c: Columns, outputs: seq<seq<string>>)
    requires forall h :: 0 <= h < |outputs| ==> |outputs[h]| > 0
    ensures AddOutputs(c, outputs) == AddRows(c, LastLines(outputs))
  {
    if |outputs| != 0 {
      var p := outputs[..|outputs| - 1];
      OutputsAsRows(c, p);
      assert LastLines(outputs)[..|outputs| - 1] == LastLines(p);
    }
  }

  /** One more all-integer row. */
  lemma LastRowStep(rows: seq<seq<string>>)
    requires |rows| > 0 && AllInts(rows[|rows| - 1])
    ensures var r := rows[|rows| - 1];
      AddTokens(Expected(rows[..|rows| - 1]), r, |r|) == Some(Expected(rows))
  {
    var front := rows[..|rows| - 1];
    var r := rows[|rows| - 1];
    RowStep(front, r, |r|);
    assert r[..|r|] == r;
    assert front + [r] == rows;
  }

  /** Rows of integers only. */
  lemma {:induction false} RowsStatistics(rows: seq<seq<string>>)
    requires forall h :: 0 <= h < |rows| ==> AllInts(rows[h])
    ensures AddRows(Initial, rows) == Some(Expected(rows))
  {
    if |rows| == 0 {
      assert Expected([]).widths == DefaultWidths;
      assert Expected([]) == Initial;
    } else {
      RowsStatistics(rows[..|rows| - 1]);
      LastRowStep(rows);
    }
  }

  /** When every host has output and its last line is all integers, the table is built without
      error and holds what `Expected` says of the hosts' last lines. */
  lemma ColumnStatistics(outputs: seq<seq<string>>)
    requires forall h :: 0 <= h < |outputs| ==> |outputs[h]| > 0 && AllInts(LastRow(outputs[h]))
    ensures AddOutputs(Initial, outputs) == Some(Expected(LastLines(outputs)))
  {
    forall h | 0 <= h < |outputs| ensures AllInts(LastLines(outputs)[h]) {
      LastLinesAt(outputs, h);
    }
    RowsOfOutputs(outputs);
  }

  /** Every column of the longest row has a value in some row. */
  lemma {:induction false} ColumnPresent(rows: seq<seq<string>>, i: nat)
    requires i < Longest(rows)
    ensures |Column(rows, i)| > 0
  {
    var p := rows[..|rows| - 1];
    assert p + [rows[|rows| - 1]] == rows;
    RowsSnoc(p, rows[|rows| - 1], i);
    if i >= |rows[|rows| - 1]| {
      ColumnPresent(p, i);
    }
  }

  /** What each entry of the expected lists means: the least and greatest value and the sum of
      its column, and a width no value of the column exceeds, nor the default. */
  lemma ExpectedColumn(rows: seq<seq<string>>, i: nat)
    requires i < Longest(rows)
    ensures |Column(rows, i)| > 0
    ensures forall k :: 0 <= k < |Column(rows, i)| ==>
      Expected(rows).minValues[i] <= Column(rows, i)[k] <= Expected(rows).maxValues[i]
    ensures Expected(rows).minValues[i] in Column(rows, i) && Expected(rows).maxValues[i] in Column(rows, i)
    ensures Expected(rows).total[i] == SumOf(Column(rows, i))
    ensures forall h :: 0 <= h < |rows| && i < |rows[h]| ==> Expected(rows).widths[i] >= |rows[h][i]|
    ensures i < |DefaultWidths| ==> Expected(rows).widths[i] >= DefaultWidths[i]
  {
    ColumnPresent(rows, i);
    MinMaxBound(Column(rows, i));
    WidthBound(rows, i);
  }

  // ---------------------------------------------------------------------------------------
  // The reference definitions

  lemma {:induction false} MinMaxBound(xs: seq<int>)
    requires |xs| > 0
    ensures forall k :: 0 <= k < |xs| ==> MinOf(xs) <= xs[k] <= MaxOf(xs)
    ensures MinOf(xs) in xs && MaxOf(xs) in xs
  {
    if |xs| > 1 {
      var p := xs[..|xs| - 1];
      MinMaxBound(p);
      assert forall k :: 0 <= k < |p| ==> p[k] == xs[k];
    }
  }

  /** No value is wider than its column. */
  lemma {:induction false} WidthBound(rows: seq<seq<string>>, i: nat)
    ensures forall h :: 0 <= h < |rows| && i < |rows[h]| ==> WidthOf(rows, i) >= |rows[h][i]|
    ensures i < |DefaultWidths| ==> WidthOf(rows, i) >= DefaultWidths[i]
  {
    if |rows| != 0 {
      var p := rows[..|rows| - 1];
      WidthBound(p, i);
      assert forall h :: 0 <= h < |p| ==> p[h] == rows[h];
    }
  }

  lemma MulMono(a: nat, x: int, y: int)
    requires x <= y
    ensures a * x <= a * y
  {
  }

  lemma LowerStep(a: nat, m: int, m0: int, s: int, v: int)
    requires m <= m0 && m <= v && a * m0 <= s
    ensures (a + 1) * m <= s + v
  {
    MulMono(a, m, m0);
  }

  lemma UpperStep(a: nat, m: int, m0: int, s: int, v: int)
    requires m0 <= m && v <= m && s <= a * m0
    ensures s + v <= (a + 1) * m
  {
    MulMono(a, m0, m);
  }

  /** The total lies between count times the minimum and count times the maximum. */
  lemma {:induction false} SumBound(xs: seq<int>)
    requires |xs| > 0
    ensures |xs| * MinOf(xs) <= SumOf(xs) <= |xs| * MaxOf(xs)
  {
    if |xs| > 1 {
      var p := xs[..|xs| - 1];
      var v := xs[|xs| - 1];
      assert xs == p + [v];
      SumBound(p);
      MinMaxSnoc(p, v);
      LowerStep(|p|, MinOf(xs), MinOf(p), SumOf(p), v);
      UpperStep(|p|, MaxOf(xs), MaxOf(p), SumOf(p), v);
    }
  }

  /** `int(v / count + 0.5)`: the average rounded half up, then truncated toward zero as
      `int()` does. */
  function Average(total: int, count: int): int
    requires count > 0
  {
    var n := 2 * total + count;
    if n >= 0 then n / (2 * count) else -((-n) / (2 * count))
  }

  lemma RoundedQuotient(t: int, c: int, m: int, mx: int)
    requires c > 0 && 0 <= m && c * m <= t <= c * mx
    ensures m <= (2 * t + c) / (2 * c) <= mx
  {
    QuotientAtLeast(t, c, m);
    QuotientAtMost(t, c, mx);
  }

  lemma QuotientAtLeast(t: int, c: int, m: int)
    requires c > 0 && c * m <= t
    ensures m <= (2 * t + c) / (2 * c)
  {
    var d := 2 * c;
    var n := 2 * t + c;
    var q := n / d;
    assert q * d + n % d == n && 0 <= n % d < d;
    if q < m {
      MulMono(d, q + 1, m);
      assert false;
    }
  }

  lemma QuotientAtMost(t: int, c: int, mx: int)
    requires c > 0 && t <= c * mx
    ensures (2 * t + c) / (2 * c) <= mx
  {
    var d := 2 * c;
    var n := 2 * t + c;
    var q := n / d;
    assert q * d + n % d == n && 0 <= n % d < d;
    if q > mx {
      MulMono(d, mx + 1, q);
      assert false;
    }
  }

  /** For non-negative values (vmstat prints no negative numbers) the average lies between the
      minimum and the maximum. */
  lemma AverageBetween(xs: seq<int>)
    requires |xs| > 0 && MinOf(xs) >= 0
    ensures MinOf(xs) <= Average(SumOf(xs), |xs|) <= MaxOf(xs)
  {
    SumBound(xs);
    RoundedQuotient(SumOf(xs), |xs|, MinOf(xs), MaxOf(xs));
  }

  // ---------------------------------------------------------------------------------------
  // The printed table

  const Minimum: string := "Minimum"
  const Maximum: string := "Maximum"
  const AverageLabel: string := "Average"

  /** Whether a cell is a key of the output map. */
  function InOutput(names: seq<string>): string -> bool
  {
    c => c in names
  }

  /** The cells of `cells` that are keys of the output map, in `cells` order. */
  function Listed(cells: seq<string>, names: seq<string>): (r: seq<string>)
    ensures forall c :: c in r <==> c in cells && c in names
  {
    KeepMembers(cells, InOutput(names));
    Keep(cells, InOutput(names))
  }

  /** The listed hosts are the cells at strictly increasing positions of `cells`, and those
      positions are exactly the cells that have output. */
  lemma ListedInOrder(cells: seq<string>, names: seq<string>)
    ensures var r := Listed(cells, names); var idx := KeptIndices(cells, InOutput(names));
      |idx| == |r| <= |cells|
      && (forall j :: 0 <= j < |idx| ==> idx[j] < |cells| && r[j] == cells[idx[j]])
      && (forall i, j :: 0 <= i < j < |idx| ==> idx[i] < idx[j])
      && (forall k :: 0 <= k < |cells| ==> (k in idx <==> cells[k] in names))
  {
    KeepInOrder(cells, InOutput(names));
  }

  /** One host's line: its name right-justified, a colon, then its last line aligned. */
  function HostLine(cell: string, out: seq<string>, w: int, widths: seq<int>): Option<string>
  {
    if |out| == 0 then None
    else
      var l := Row(widths, SplitWs(out[|out| - 1]));
      if l.None? then None else Some(RJust(cell, w) + ":" + l.value)
  }

  /** The output of `cell` in the output map given as parallel key and value sequences. */
  function OutputOf(names: seq<string>, outputs: seq<seq<string>>, cell: string): seq<string>
    requires |names| == |outputs|
  {
    if cell in names then outputs[FirstIndex(names, cell)] else []
  }

  /** The line of each host of the output map. */
  function LineOf(names: seq<string>, outputs: seq<seq<string>>, w: int, widths: seq<int>): string -> Option<string>
    requires |names| == |outputs|
  {
    cell => HostLine(cell, OutputOf(names, outputs, cell), w, widths)
  }

  /** The lines `line` gives for the cells of `cells` that are keys of the output map, in
      `cells` order; `None` as soon as one of them raises. */
  function HostLines(cells: seq<string>, names: seq<string>, line: string -> Option<string>): Option<seq<string>>
  {
    if |cells| == 0 then Some([])
    else
      var front := HostLines(cells[..|cells| - 1], names, line);
      var cell := cells[|cells| - 1];
      if front.None? then None
      else if cell !in names then front
      else
        var l := line(cell);
        if l.None? then None else Some(front.value + [l.value])
  }

  function Strings(xs: seq<int>): (r: seq<string>)
    ensures |r| == |xs| && forall k :: 0 <= k < |xs| ==> r[k] == IntToString(xs[k])
  {
    seq(|xs|, k requires 0 <= k < |xs| => IntToString(xs[k]))
  }

  function Averages(total: seq<int>, count: int): (r: seq<int>)
    requires count > 0
    ensures |r| == |total| && forall k :: 0 <= k < |total| ==> r[k] == Average(total[k], count)
  {
    if |total| == 0 then [] else Averages(total[..|total| - 1], count) + [Average(total[|total| - 1], count)]
  }

  /** A name right-justified to the name column, a colon, then the numbers aligned. */
  function Labelled(name: string, w: int, widths: seq<int>, values: seq<int>): string
    requires |values| <= |widths|
  {
    RJust(name, w) + ":" + Fields(widths, Strings(values))
  }

  function StatLine(name: string, w: int, widths: seq<int>, values: seq<int>): (r: Option<string>)
    ensures r.Some? <==> |values| <= |widths|
    ensures r.Some? ==> r.value == Labelled(name, w, widths, values)
  {
    var l := Row(widths, Strings(values));
    if l.None? then None else Some(RJust(name, w) + ":" + l.value)
  }

  /** The Minimum, Maximum and Average lines. */
  function StatLines(c: Columns, w: int, count: int): Option<seq<string>>
    requires count > 0
  {
    var mins := StatLine(Minimum, w, c.widths, c.minValues);
    var maxs := StatLine(Maximum, w, c.widths, c.maxValues);
    var avgs := StatLine(AverageLabel, w, c.widths, Averages(c.total, count));
    if mins.None? || maxs.None? || avgs.None? then None else Some([mins.value, maxs.value, avgs.value])
  }

  /** listVmstatHeader on the first host's output: its first two lines, aligned. */
  function HeaderLines(outputs: seq<seq<string>>, w: int, clock: string, widths: seq<int>): Option<seq<string>>
  {
    if |outputs| == 0 || |outputs[0]| < 2 then None
    else
      var l1 := Row(Header1Widths, SplitWs(outputs[0][0]));
      var l2 := Row(widths, SplitWs(outputs[0][1]));
      if l1.None? || l2.None? then None
      else Some([RJust(" ", w) + " " + l1.value, RJust(clock, w) + ":" + l2.value])
  }

  /** The width of the name column: the longest host name or clock, and at least as wide as
      "Minimum", "Maximum" and "Average". */
  function NameWidth(clock: string, names: seq<string>): (w: nat)
    ensures w >= |Minimum| && w >= |Maximum| && w >= |AverageLabel| && w >= MaxNameLen(clock, names)
  {
    if MaxNameLen(clock, names) < 7 then 7 else MaxNameLen(clock, names)
  }

  /** Whether the header is printed: always, unless `-n` was given and this is not the first
      sample. */
  predicate ShowsHeader(vmstatOps: string, count: int)
  {
    count == 0 || !Contains(vmstatOps, "-n")
  }

  /** The header, host and statistics lines, in that order; `None` if any of them raised. */
  function Assemble(header: Option<seq<string>>, hosts: Option<seq<string>>, stats: Option<seq<string>>)
    : (r: Option<seq<string>>)
    ensures r.Some? <==> header.Some? && hosts.Some? && stats.Some?
    ensures r.Some? ==> r.value == header.value + hosts.value + stats.value
  {
    if header.None? || hosts.None? || stats.None? then None else Some(header.value + hosts.value + stats.value)
  }

  /** Assembling three present parts ends with the last part. */
  lemma AssembledTail(header: Option<seq<string>>, hosts: Option<seq<string>>, stats: Option<seq<string>>)
    requires header.Some? && hosts.Some? && stats.Some?
    ensures Assemble(header, hosts, stats).Some?
    ensures var r := Assemble(header, hosts, stats).value;
      |r| >= |stats.value| && r[|r| - |stats.value|..] == stats.value
  {
    var r := header.value + hosts.value + stats.value;
    assert r[|r| - |stats.value|..] == stats.value;
  }

  /** listVmstatResults: the lines it prints, or `None` where it raises IndexError. The output
      map is `names` (its keys, in insertion order) with `outputs`; `clock` is the local time. */
  function Report(cells: seq<string>, names: seq<string>, outputs: seq<seq<string>>, vmstatOps: string,
                  count: int, clock: string): Option<seq<string>>
    requires |names| == |outputs|
  {
    var cols := AddOutputs(Initial, outputs);
    if cols.None? then None
    else
      var c := cols.value;
      var w := NameWidth(clock, names);
      Assemble(if ShowsHeader(vmstatOps, count) then HeaderLines(outputs, w, clock, c.widths) else Some([]),
               HostLines(cells, names, LineOf(names, outputs, w, c.widths)),
               if |outputs| > 1 then StatLines(c, w, |outputs|) else Some([]))
  }

  // ---------------------------------------------------------------------------------------
  // What the table shows

  /** One line per reporting cell, in `cells` order, each that cell's line. */
  lemma {:induction false} HostLinesShape(cells: seq<string>, names: seq<string>, line: string -> Option<string>)
    ensures var r := HostLines(cells, names, line);
      var listed := Listed(cells, names);
      r.Some? <==> forall j :: 0 <= j < |listed| ==> line(listed[j]).Some?
    ensures var r := HostLines(cells, names, line);
      var listed := Listed(cells, names);
      r.Some? ==> (|r.value| == |listed| && forall j :: 0 <= j < |r.value| ==> Some(r.value[j]) == line(listed[j]))
  {
    if |cells| != 0 {
      var front := cells[..|cells| - 1];
      var cell := cells[|cells| - 1];
      HostLinesShape(front, names, line);
      var l0 := Listed(front, names);
      var listed := Listed(cells, names);
      if cell in names {
        assert listed == l0 + [cell];
        assert forall j :: 0 <= j < |l0| ==> listed[j] == l0[j];
        assert listed[|l0|] == cell;
        if forall j :: 0 <= j < |listed| ==> line(listed[j]).Some? {
          assert forall j :: 0 <= j < |l0| ==> line(l0[j]).Some?;
          assert line(cell).Some?;
          assert HostLines(front, names, line).Some?;
          assert HostLines(cells, names, line).Some?;
        } else {
          var j :| 0 <= j < |listed| && line(listed[j]).None?;
          if j < |l0| {
            assert line(l0[j]).None?;
            assert HostLines(front, names, line).None?;
          } else {
            assert line(cell).None?;
          }
          assert HostLines(cells, names, line).None?;
          assert !(forall k :: 0 <= k < |Listed(cells, names)| ==> line(Listed(cells, names)[k]).Some?);
        }
      } else {
        assert listed == l0;
        assert HostLines(cells, names, line) == HostLines(front, names, line);
      }
    }
  }

  /** A host's line is its name, right-justified to the common width, a colon, and its values
      in their columns; splitting the columns gives the host's values back. */
  lemma HostLineContent(cell: string, out: seq<string>, w: int, widths: seq<int>)
    requires HostLine(cell, out, w, widths).Some?
    ensures var l := HostLine(cell, out, w, widths).value;
      var tag := RJust(cell, w);
      |tag| >= w && l[..|tag|] == tag && l[|tag|] == ':'
      && SplitWs(l[|tag| + 1..]) == LastRow(out)
  {
    var tokens := SplitWs(out[|out| - 1]);
    var tag := RJust(cell, w);
    var f := Fields(widths, tokens);
    var l := tag + ":" + f;
    assert l[..|tag|] == tag;
    assert l[|tag| + 1..] == f;
    SplitWsTokens(out[|out| - 1]);
    FieldsRoundTrip(widths, tokens);
  }

  /** Header lines, host lines and statistics lines, in that order, and no others. */
  lemma ReportShape(cells: seq<string>, names: seq<string>, outputs: seq<seq<string>>, vmstatOps: string,
                    count: int, clock: string)
    requires |names| == |outputs|
    requires Report(cells, names, outputs, vmstatOps, count, clock).Some?
    ensures |Report(cells, names, outputs, vmstatOps, count, clock).value|
      == (if ShowsHeader(vmstatOps, count) then 2 else 0) + |Listed(cells, names)| + (if |outputs| > 1 then 3 else 0)
  {
    var c := AddOutputs(Initial, outputs).value;
    var w := NameWidth(clock, names);
    HostLinesShape(cells, names, LineOf(names, outputs, w, c.widths));
  }

  /** No row is longer than the longest. */
  lemma {:induction false} LongestBound(rows: seq<seq<string>>, h: nat)
    requires h < |rows|
    ensures |rows[h]| <= Longest(rows)
  {
    if h < |rows| - 1 {
      LongestBound(rows[..|rows| - 1], h);
    }
  }

  /** The header lines fit when the first host's two header lines are no longer than their
      columns. */
  lemma HeaderFits(outputs: seq<seq<string>>, w: int, clock: string, widths: seq<int>)
    requires |outputs| > 0 && |outputs[0]| >= 2 && |widths| >= |DefaultWidths|
    requires |SplitWs(outputs[0][0])| <= |Header1Widths| && |SplitWs(outputs[0][1])| <= |DefaultWidths|
    ensures HeaderLines(outputs, w, clock, widths).Some?
  {
  }

  /** Every host line fits when every last line is all integers: no row is longer than the
      longest, and the widths cover the longest. */
  lemma HostsFit(cells: seq<string>, names: seq<string>, outputs: seq<seq<string>>, w: int)
    requires |names| == |outputs|
    requires forall h :: 0 <= h < |outputs| ==> |outputs[h]| > 0
    ensures HostLines(cells, names, LineOf(names, outputs, w, Expected(LastLines(outputs)).widths)).Some?
  {
    var rows := LastLines(outputs);
    var widths := Expected(rows).widths;
    var line := LineOf(names, outputs, w, widths);
    forall j | 0 <= j < |Listed(cells, names)| ensures line(Listed(cells, names)[j]).Some? {
      var cell := Listed(cells, names)[j];
      var h := FirstIndex(names, cell);
      LastLinesAt(outputs, h);
      LongestBound(rows, h);
    }
    HostLinesShape(cells, names, line);
  }

  /** The hosts' last lines as rows: all-integer rows give `Expected`. */
  lemma RowsOfOutputs(outputs: seq<seq<string>>)
    requires forall h :: 0 <= h < |outputs| ==> |outputs[h]| > 0 && AllInts(LastLines(outputs)[h])
    ensures AddOutputs(Initial, outputs) == Some(Expected(LastLines(outputs)))
  {
    OutputsAsRows(Initial, outputs);
    RowsStatistics(LastLines(outputs));
  }

  lemma ExpectedSizes(rows: seq<seq<string>>)
    ensures var c := Expected(rows);
      |c.minValues| == |c.maxValues| == |c.total| == Longest(rows) <= |c.widths|
      && |c.widths| >= |DefaultWidths|
  {
  }

  /** The three statistics lines fit when no statistic is longer than the widths. */
  lemma StatsFit(c: Columns, w: int, count: int)
    requires count > 0
    requires |c.minValues| <= |c.widths| && |c.maxValues| <= |c.widths| && |c.total| <= |c.widths|
    ensures StatLines(c, w, count).Some? && |StatLines(c, w, count).value| == 3
  {
  }

  /** The report is the header, host and statistics parts of the table `c`, assembled. */
  lemma ReportParts(cells: seq<string>, names: seq<string>, outputs: seq<seq<string>>, vmstatOps: string,
                    count: int, clock: string, c: Columns)
    requires |names| == |outputs|
    requires AddOutputs(Initial, outputs) == Some(c)
    ensures var w := NameWidth(clock, names);
      Report(cells, names, outputs, vmstatOps, count, clock)
      == Assemble(if ShowsHeader(vmstatOps, count) then HeaderLines(outputs, w, clock, c.widths) else Some([]),
                  HostLines(cells, names, LineOf(names, outputs, w, c.widths)),
                  if |outputs| > 1 then StatLines(c, w, |outputs|) else Some([]))
  {
  }

  /** Once the table `c` is built and the header and host lines fit, the report is printed
      and ends with the statistics lines of `c`. */
  lemma ReportOfParts(cells: seq<string>, names: seq<string>, outputs: seq<seq<string>>, vmstatOps: string,
                      count: int, clock: string, c: Columns)
    requires |names| == |outputs| && |outputs| > 0
    requires AddOutputs(Initial, outputs) == Some(c)
    requires |c.minValues| <= |c.widths| && |c.maxValues| <= |c.widths| && |c.total| <= |c.widths|
    requires HeaderLines(outputs, NameWidth(clock, names), clock, c.widths).Some?
    requires HostLines(cells, names, LineOf(names, outputs, NameWidth(clock, names), c.widths)).Some?
    ensures Report(cells, names, outputs, vmstatOps, count, clock).Some?
    ensures var r := Report(cells, names, outputs, vmstatOps, count, clock).value;
      |outputs| > 1 ==> |r| >= 3 && StatLines(c, NameWidth(clock, names), |outputs|) == Some(r[|r| - 3..])
  {
    var w := NameWidth(clock, names);
    ReportParts(cells, names, outputs, vmstatOps, count, clock, c);
    var stats := if |outputs| > 1 then StatLines(c, w, |outputs|) else Some([]);
    if |outputs| > 1 {
      StatsFit(c, w, |outputs|);
    }
    AssembledTail(if ShowsHeader(vmstatOps, count) then HeaderLines(outputs, w, clock, c.widths) else Some([]),
                  HostLines(cells, names, LineOf(names, outputs, w, c.widths)), stats);
  }

  /** On well-formed vmstat output (every host's last line all integers, and the first host's
      two header lines no longer than their columns) the table is printed without error, and it
      ends with the statistics lines: each column's minimum, maximum and rounded average. */
  lemma ReportOfNumbers(cells: seq<string>, names: seq<string>, outputs: seq<seq<string>>, vmstatOps: string,
                        count: int, clock: string)
    requires |names| == |outputs| && |outputs| > 0
    requires forall h :: 0 <= h < |outputs| ==> |outputs[h]| > 0 && AllInts(LastLines(outputs)[h])
    requires |outputs[0]| >= 2
    requires |SplitWs(outputs[0][0])| <= |Header1Widths| && |SplitWs(outputs[0][1])| <= |DefaultWidths|
    ensures Report(cells, names, outputs, vmstatOps, count, clock).Some?
    ensures var r := Report(cells, names, outputs, vmstatOps, count, clock).value;
      |outputs| > 1 ==>
        |r| >= 3 && StatLines(Expected(LastLines(outputs)), NameWidth(clock, names), |outputs|) == Some(r[|r| - 3..])
  {
    RowsOfOutputs(outputs);
    var c := Expected(LastLines(outputs));
    var w := NameWidth(clock, names);
    ExpectedSizes(LastLines(outputs));
    HeaderFits(outputs, w, clock, c.widths);
    HostsFit(cells, names, outputs, w);
    ReportOfParts(cells, names, outputs, vmstatOps, count, clock, c);
  }
}
