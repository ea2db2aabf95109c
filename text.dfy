/** The Python `str` operations dcli and its helper scripts rely on, over strings
    as sequences of characters: strip, split, join, replace, startswith,
    substring search, right-justification and integer printing. */
module Text {

  /** Python's `str.isspace()` on the ASCII range: space, tab to carriage return, and the
      four separators 0x1C-0x1F. */
  predicate IsSpace(c: char) { c == ' ' || '\t' <= c <= '\r' || '\U{1C}' <= c <= '\U{1F}' }

  predicate NoSpace(s: string) { forall i :: 0 <= i < |s| ==> !IsSpace(s[i]) }

  predicate AllSpace(s: string) { forall i :: 0 <= i < |s| ==> IsSpace(s[i]) }

  /** `s.lstrip(cs)`, with the characters to drop given by `drop`: drop the longest prefix of them. */
  function LTrim(s: string, drop: char -> bool): (r: string)
    ensures |r| <= |s| && r == s[|s| - |r|..]
    ensures r == [] || !drop(r[0])
    ensures forall i :: 0 <= i < |s| - |r| ==> drop(s[i])
    decreases |s|
  {
    if |s| > 0 && drop(s[0]) then LTrim(s[1..], drop) else s
  }

  /** `s.rstrip(cs)`: drop the longest suffix of characters `drop` accepts. */
  function RTrim(s: string, drop: char -> bool): (r: string)
    ensures |r| <= |s| && r == s[..|r|]
    ensures r == [] || !drop(r[|r| - 1])
    ensures forall i :: |r| <= i < |s| ==> drop(s[i])
    decreases |s|
  {
    if |s| > 0 && drop(s[|s| - 1]) then RTrim(s[..|s| - 1], drop) else s
  }

  /** `s.strip(cs)`: a contiguous piece of `s` that neither starts nor ends with a dropped character. */
  function Trim(s: string, drop: char -> bool): (r: string)
    ensures |r| <= |LTrim(s, drop)| && r == LTrim(s, drop)[..|r|]
    ensures r == [] || (!drop(r[0]) && !drop(r[|r| - 1]))
  {
    RTrim(LTrim(s, drop), drop)
  }

  /** `s.strip()`, `s.lstrip()`, `s.rstrip()` with no argument. */
  function Strip(s: string): string { Trim(s, IsSpace) }
  function LStrip(s: string): string { LTrim(s, IsSpace) }
  function RStrip(s: string): string { RTrim(s, IsSpace) }

  predicate StartsWith(s: string, p: string) { |p| <= |s| && s[..|p|] == p }

  predicate EndsWith(s: string, p: string) { |p| <= |s| && s[|s| - |p|..] == p }

  predicate OccursAt(s: string, p: string, i: int) { 0 <= i && i + |p| <= |s| && s[i..i + |p|] == p }

  /** `p in s` for strings. */
  predicate Contains(s: string, p: string) { exists i :: 0 <= i <= |s| - |p| && OccursAt(s, p, i) }

  /** `line in lines` is replaced by "some line contains p". */
  predicate AnyContains(lines: seq<string>, p: string) { exists k :: 0 <= k < |lines| && Contains(lines[k], p) }

  lemma Affixes(p: string, q: string)
    ensures StartsWith(p + q, p) && EndsWith(p + q, q)
  {
    assert (p + q)[..|p|] == p;
    assert (p + q)[|p|..] == q;
  }

  lemma StartsWithExtend(s: string, p: string, q: string)
    requires StartsWith(s, p)
    ensures StartsWith(s + q, p)
  {
    assert (s + q)[..|p|] == s[..|p|];
  }

  lemma StartsWithExtend4(s: string, p: string, a: string, b: string, c: string, d: string)
    requires StartsWith(s, p)
    ensures StartsWith(s + a + b + c + d, p)
  {
    assert (s + a + b + c + d)[..|p|] == s[..|p|];
  }

  /** A string framed as `a + b + (o + m + c) + d + e` starts with `a + b + o` and ends
      with `c + d + e`. */
  lemma Framing(a: string, b: string, o: string, m: string, c: string, d: string, e: string)
    ensures StartsWith(a + b + (o + m + c) + d + e, a + b + o)
    ensures EndsWith(a + b + (o + m + c) + d + e, c + d + e)
  {
    var x := a + b + (o + m + c) + d + e;
    assert x == (a + b + o) + (m + (c + d + e));
    Affixes(a + b + o, m + (c + d + e));
    Affixes(m, c + d + e);
    EndsWithTrans(x, m + (c + d + e), c + d + e);
  }

  lemma ContainsItself(x: string)
    ensures Contains(x, x)
  {
    assert OccursAt(x, x, 0);
  }

  lemma ContainsInMiddle(a: string, b: string, c: string, x: string)
    requires Contains(b, x)
    ensures Contains(a + b + c, x)
  {
    var i :| 0 <= i <= |b| - |x| && OccursAt(b, x, i);
    var s := a + b + c;
    assert s[|a| + i..|a| + i + |x|] == b[i..i + |x|];
    assert OccursAt(s, x, |a| + i);
  }

  lemma ContainsLeft(a: string, b: string, x: string)
    requires Contains(a, x)
    ensures Contains(a + b, x)
  {
    var i :| 0 <= i <= |a| - |x| && OccursAt(a, x, i);
    assert (a + b)[i..i + |x|] == a[i..i + |x|];
    assert OccursAt(a + b, x, i);
  }

  lemma ContainsRight(a: string, b: string, x: string)
    requires Contains(b, x)
    ensures Contains(a + b, x)
  {
    var i :| 0 <= i <= |b| - |x| && OccursAt(b, x, i);
    assert (a + b)[|a| + i..|a| + i + |x|] == b[i..i + |x|];
    assert OccursAt(a + b, x, |a| + i);
  }

  lemma ContainsPrefix(a: string, b: string, x: string)
    requires StartsWith(a, x)
    ensures Contains(a + b, x)
  {
    assert (a + b)[..|x|] == a[..|x|];
    assert OccursAt(a + b, x, 0);
  }

  function LowerChar(c: char): char
  {
    if 'A' <= c <= 'Z' then (c as int + 32) as char else c
  }

  /** `s.lower()` on the ASCII letters. */
  function Lower(s: string): (r: string)
    ensures |r| == |s| && forall i :: 0 <= i < |s| ==> r[i] == LowerChar(s[i])
  {
    seq(|s|, i requires 0 <= i < |s| => LowerChar(s[i]))
  }

  lemma LowerConcat(a: string, b: string)
    ensures Lower(a + b) == Lower(a) + Lower(b)
  {
  }

  lemma ConcatAssoc(a: string, b: string, c: string)
    ensures a + (b + c) == (a + b) + c
  {
  }

  /** `sep.join(parts)`. */
  function Join(parts: seq<string>, sep: string): string
  {
    if |parts| == 0 then "" else if |parts| == 1 then parts[0] else parts[0] + sep + Join(parts[1..], sep)
  }

  /** `"".join(parts)`. */
  function Concat(parts: seq<string>): string
  {
    if |parts| == 0 then "" else parts[0] + Concat(parts[1..])
  }

  lemma {:induction false} ConcatSnoc(parts: seq<string>, x: string)
    ensures Concat(parts + [x]) == Concat(parts) + x
  {
    if |parts| != 0 {
      assert (parts + [x])[1..] == parts[1..] + [x];
      ConcatSnoc(parts[1..], x);
      ConcatAssoc(parts[0], Concat(parts[1..]), x);
    }
  }

  /** `s.split(sep)` for a non-empty separator: leftmost, non-overlapping occurrences. */
  function Split(s: string, sep: string): (parts: seq<string>)
    requires |sep| > 0
    ensures |parts| >= 1
    decreases |s|
  {
    if |s| == 0 then [""]
    else if StartsWith(s, sep) then [""] + Split(s[|sep|..], sep)
    else
      var rest := Split(s[1..], sep);
      [[s[0]] + rest[0]] + rest[1..]
  }

  /** `s.replace(p, r)` for a non-empty pattern. */
  function Replace(s: string, p: string, r: string): string
    requires |p| > 0
    decreases |s|
  {
    if |s| == 0 then ""
    else if StartsWith(s, p) then r + Replace(s[|p|..], p, r)
    else [s[0]] + Replace(s[1..], p, r)
  }

  lemma JoinConsHead(c: char, parts: seq<string>, sep: string)
    requires |parts| >= 1
    ensures Join([[c] + parts[0]] + parts[1..], sep) == [c] + Join(parts, sep)
  {
    var q := [[c] + parts[0]] + parts[1..];
    assert q[1..] == parts[1..];
  }

  lemma JoinConsEmpty(parts: seq<string>, sep: string)
    requires |parts| >= 1
    ensures Join([""] + parts, sep) == sep + Join(parts, sep)
  {
    assert ([""] + parts)[1..] == parts;
  }

  /** Splitting and joining with the same separator gives the string back. */
  lemma {:induction false} SplitJoin(s: string, sep: string)
    requires |sep| > 0
    ensures Join(Split(s, sep), sep) == s
    decreases |s|
  {
    if |s| == 0 {
    } else if StartsWith(s, sep) {
      var rest := Split(s[|sep|..], sep);
      SplitJoin(s[|sep|..], sep);
      JoinConsEmpty(rest, sep);
      assert Split(s, sep) == [""] + rest;
      assert s == sep + s[|sep|..];
    } else {
      var rest := Split(s[1..], sep);
      SplitJoin(s[1..], sep);
      JoinConsHead(s[0], rest, sep);
      assert Split(s, sep) == [[s[0]] + rest[0]] + rest[1..];
      assert s == [s[0]] + s[1..];
    }
  }

  /** Replacing is joining the split pieces with the replacement. */
  lemma {:induction false} ReplaceIsJoinOfSplit(s: string, p: string, r: string)
    requires |p| > 0
    ensures Replace(s, p, r) == Join(Split(s, p), r)
    decreases |s|
  {
    if |s| == 0 {
    } else if StartsWith(s, p) {
      var rest := Split(s[|p|..], p);
      ReplaceIsJoinOfSplit(s[|p|..], p, r);
      JoinConsEmpty(rest, r);
      assert Split(s, p) == [""] + rest;
      assert Replace(s, p, r) == r + Replace(s[|p|..], p, r);
    } else {
      var rest := Split(s[1..], p);
      ReplaceIsJoinOfSplit(s[1..], p, r);
      JoinConsHead(s[0], rest, r);
      assert Split(s, p) == [[s[0]] + rest[0]] + rest[1..];
      assert Replace(s, p, r) == [s[0]] + Replace(s[1..], p, r);
    }
  }

  /** Joining one more part appends the separator and that part. */
  lemma {:induction false} JoinSnoc(parts: seq<string>, x: string, sep: string)
    requires |parts| >= 1
    ensures Join(parts + [x], sep) == Join(parts, sep) + sep + x
  {
    if |parts| == 1 {
      assert (parts + [x])[1..] == [x];
    } else {
      JoinSnoc(parts[1..], x, sep);
      assert (parts + [x])[1..] == parts[1..] + [x];
    }
  }

  /** A string without the separator character splits into itself alone. */
  lemma {:induction false} SplitWithoutSeparator(x: string, c: char)
    requires c !in x
    ensures Split(x, [c]) == [x]
    decreases |x|
  {
    if |x| != 0 {
      assert x[0] != c;
      SplitWithoutSeparator(x[1..], c);
      assert [x[0]] + x[1..] == x;
    }
  }

  /** The first piece ends at the first separator. */
  lemma {:induction false} SplitAtFirstSeparator(x: string, c: char, y: string)
    requires c !in x
    ensures Split(x + [c] + y, [c]) == [x] + Split(y, [c])
    decreases |x|
  {
    var s := x + [c] + y;
    if |x| == 0 {
      assert s == [c] + y && s[1..] == y;
    } else {
      assert s[0] == x[0] && x[0] != c;
      assert s[1..] == x[1..] + [c] + y;
      SplitAtFirstSeparator(x[1..], c, y);
      assert [x[0]] + x[1..] == x;
    }
  }

  /** Joining with one character and splitting on it again gives back the parts,
      when no part contains that character. */
  lemma {:induction false} JoinSplit(parts: seq<string>, c: char)
    requires |parts| >= 1
    requires forall k :: 0 <= k < |parts| ==> c !in parts[k]
    ensures Split(Join(parts, [c]), [c]) == parts
  {
    if |parts| == 1 {
      SplitWithoutSeparator(parts[0], c);
    } else {
      JoinSplit(parts[1..], c);
      SplitAtFirstSeparator(parts[0], c, Join(parts[1..], [c]));
    }
  }

  /** Splitting on one character leaves that character in no piece. */
  lemma {:induction false} SplitPiecesAvoidSeparator(s: string, c: char)
    ensures forall k :: 0 <= k < |Split(s, [c])| ==> c !in Split(s, [c])[k]
    decreases |s|
  {
    if |s| == 0 {
    } else if StartsWith(s, [c]) {
      SplitPiecesAvoidSeparator(s[1..], c);
    } else {
      SplitPiecesAvoidSeparator(s[1..], c);
      assert s[0] != c;
    }
  }

  /** Replacing a pattern by text without `c` never introduces `c`. */
  lemma {:induction false} ReplaceKeepsCharOut(s: string, p: string, r: string, c: char)
    requires |p| > 0 && c !in s && c !in r
    ensures c !in Replace(s, p, r)
    decreases |s|
  {
    if |s| == 0 {
    } else if StartsWith(s, p) {
      ReplaceKeepsCharOut(s[|p|..], p, r, c);
    } else {
      ReplaceKeepsCharOut(s[1..], p, r, c);
    }
  }

  /** A non-empty run of non-whitespace characters. */
  predicate IsToken(s: string) { |s| > 0 && NoSpace(s) }

  /** Length of the run of non-whitespace characters at the start of `s`. */
  function TokenLen(s: string): (n: nat)
    ensures n <= |s|
    ensures n == 0 || IsToken(s[..n])
    ensures n == |s| || IsSpace(s[n])
  {
    if |s| == 0 || IsSpace(s[0]) then 0
    else
      var m := 1 + TokenLen(s[1..]);
      assert s[..m] == [s[0]] + s[1..][..m - 1];
      m
  }

  /** `s.split()`: the maximal runs of non-whitespace characters, in order. */
  function SplitWs(s: string): seq<string>
    decreases |s|
  {
    var t := LStrip(s);
    if |t| == 0 then []
    else
      var n := TokenLen(t);
      assert !IsSpace(t[0]);
      assert n != 0;
      [t[..n]] + SplitWs(t[n..])
  }

  /** Every piece `s.split()` returns is a non-empty run without whitespace. */
  lemma {:induction false} SplitWsTokens(s: string)
    ensures forall k :: 0 <= k < |SplitWs(s)| ==> IsToken(SplitWs(s)[k])
    decreases |s|
  {
    var t := LStrip(s);
    if |t| != 0 {
      var n := TokenLen(t);
      assert !IsSpace(t[0]);
      SplitWsTokens(t[n..]);
      AllTokensCons(t[..n], SplitWs(t[n..]));
    }
  }

  /** A token in front of tokens gives tokens. */
  lemma AllTokensCons(h: string, rest: seq<string>)
    requires IsToken(h) && forall k :: 0 <= k < |rest| ==> IsToken(rest[k])
    ensures forall k :: 0 <= k < |[h] + rest| ==> IsToken(([h] + rest)[k])
  {
  }

  /** `s.split(maxsplit=1)`: the first token, then the rest with its leading whitespace dropped. */
  function SplitWsOnce(s: string): seq<string>
  {
    var t := LStrip(s);
    if |t| == 0 then []
    else
      var n := TokenLen(t);
      var rest := LStrip(t[n..]);
      if |rest| == 0 then [t[..n]] else [t[..n], rest]
  }

  /** `s.split(maxsplit=1)` is empty exactly for an all-whitespace string. */
  lemma SplitWsOnceEmpty(s: string)
    ensures |SplitWsOnce(s)| == 0 <==> AllSpace(s)
  {
    var t := LStrip(s);
    if |t| == 0 {
      assert forall i :: 0 <= i < |s| ==> IsSpace(s[i]);
    } else {
      assert s[|s| - |t|] == t[0];
      assert TokenLen(t) != 0;
    }
  }

  /** At most two pieces, the first a token. */
  lemma SplitWsOnceHead(s: string)
    ensures |SplitWsOnce(s)| <= 2
    ensures |SplitWsOnce(s)| >= 1 ==> IsToken(SplitWsOnce(s)[0])
  {
    var t := LStrip(s);
    if |t| != 0 {
      assert !IsSpace(t[0]);
      assert TokenLen(t) != 0;
    }
  }

  lemma EndsWithTrans(s: string, t: string, u: string)
    requires EndsWith(s, t) && EndsWith(t, u)
    ensures EndsWith(s, u)
  {
    assert s[|s| - |u|..] == s[|s| - |t|..][|t| - |u|..];
  }

  lemma SuffixOfSuffix(s: string, a: nat, b: nat)
    requires a + b <= |s|
    ensures s[a..][b..] == s[a + b..]
  {
  }

  /** A second piece is a suffix of `s` that starts with no whitespace. */
  lemma SplitWsOnceTail(s: string)
    ensures |SplitWsOnce(s)| == 2 ==> |SplitWsOnce(s)[1]| > 0 && !IsSpace(SplitWsOnce(s)[1][0])
    ensures |SplitWsOnce(s)| == 2 ==> EndsWith(s, SplitWsOnce(s)[1])
  {
    var t := LStrip(s);
    if |t| != 0 {
      var n := TokenLen(t);
      var rest := LStrip(t[n..]);
      if |rest| != 0 {
        assert SplitWsOnce(s) == [t[..n], rest];
        StripAfterIsSuffix(s, n);
      }
    }
  }

  /** What is left after stripping, skipping `n` characters and stripping again is a suffix. */
  lemma StripAfterIsSuffix(s: string, n: nat)
    requires n <= |LStrip(s)|
    ensures EndsWith(s, LStrip(LStrip(s)[n..]))
  {
    var t := LStrip(s);
    SuffixChain(s, t, n, LStrip(t[n..]));
  }

  /** A suffix of a part of a suffix is a suffix. */
  lemma SuffixChain(s: string, t: string, n: nat, rest: string)
    requires EndsWith(s, t) && n <= |t| && EndsWith(t[n..], rest)
    ensures EndsWith(s, rest)
  {
    var i := |s| - |t| + n;
    assert t[n..] == s[i..] by {
      SuffixOfSuffix(s, |s| - |t|, n);
    }
    SuffixOfSuffix(s, i, |t[n..]| - |rest|);
  }

  /** Index of the first `c` in `s`, or `|s|` when there is none. */
  function IndexOf(s: string, c: char): (k: nat)
    ensures k <= |s|
    ensures forall i :: 0 <= i < k ==> s[i] != c
    ensures k < |s| ==> s[k] == c
  {
    if |s| == 0 || s[0] == c then 0 else 1 + IndexOf(s[1..], c)
  }

  function Spaces(n: nat): (r: string)
    ensures |r| == n && AllSpace(r)
  {
    seq(n, _ => ' ')
  }

  /** `s.rjust(w)`: pad on the left with spaces up to width `w`. */
  function RJust(s: string, w: int): (r: string)
    ensures |r| == if |s| >= w then |s| else w
  {
    if |s| >= w then s else Spaces(w - |s|) + s
  }

  /** The justified string is spaces followed by `s`. */
  lemma RJustShape(s: string, w: int)
    ensures var r := RJust(s, w);
      |s| <= |r| && r == r[..|r| - |s|] + s && AllSpace(r[..|r| - |s|])
  {
    var r := RJust(s, w);
    if |s| < w {
      assert r[..|r| - |s|] == Spaces(w - |s|);
    }
  }

  function DigitChar(d: nat): char
    requires d < 10
  {
    "0123456789"[d]
  }

  /** `str(n)` for a natural number. */
  function NatToString(n: nat): (r: string)
    ensures |r| >= 1 && forall i :: 0 <= i < |r| ==> '0' <= r[i] <= '9'
  {
    if n < 10 then [DigitChar(n)] else NatToString(n / 10) + [DigitChar(n % 10)]
  }

  /** `str(i)` and `"%d" % i` for an integer. */
  function IntToString(i: int): (r: string)
    ensures |r| >= 1
  {
    if i < 0 then "-" + NatToString(-i) else NatToString(i)
  }

  // ---------------------------------------------------------------------------------------
  // Filtering a sequence, as a list comprehension with an `if` does

  /** The elements `keep` accepts, in order. */
  function Keep<T>(xs: seq<T>, keep: T -> bool): seq<T>
  {
    if |xs| == 0 then []
    else
      var last := xs[|xs| - 1];
      Keep(xs[..|xs| - 1], keep) + (if keep(last) then [last] else [])
  }

  /** The positions of the elements `keep` accepts, in increasing order: the witness that
      `Keep` keeps the input's order. */
  function KeptIndices<T>(xs: seq<T>, keep: T -> bool): seq<nat>
  {
    if |xs| == 0 then []
    else KeptIndices(xs[..|xs| - 1], keep) + (if keep(xs[|xs| - 1]) then [|xs| - 1] else [])
  }

  lemma {:induction false} KeepMembers<T>(xs: seq<T>, keep: T -> bool)
    ensures forall x :: x in Keep(xs, keep) <==> x in xs && keep(x)
  {
    if |xs| != 0 {
      var p := xs[..|xs| - 1];
      KeepMembers(p, keep);
      assert xs == p + [xs[|xs| - 1]];
    }
  }

  /** The kept positions are in range, strictly increasing, and exactly those whose element
      `keep` accepts. */
  lemma {:induction false} KeptIndicesExactly<T>(xs: seq<T>, keep: T -> bool)
    ensures var idx := KeptIndices(xs, keep);
      (forall j :: 0 <= j < |idx| ==> idx[j] < |xs|)
      && (forall i, j :: 0 <= i < j < |idx| ==> idx[i] < idx[j])
      && (forall k :: 0 <= k < |xs| ==> (k in idx <==> keep(xs[k])))
  {
    if |xs| != 0 {
      var n := |xs| - 1;
      var p := xs[..n];
      KeptIndicesExactly(p, keep);
      var i0 := KeptIndices(p, keep);
      var tail := if keep(xs[n]) then [n] else [];
      var idx := KeptIndices(xs, keep);
      assert idx == i0 + tail;
      assert n !in i0;
      forall k | 0 <= k < |xs| ensures k in idx <==> keep(xs[k]) {
        assert k in idx <==> k in i0 || k in tail;
        if k < n {
          assert xs[k] == p[k];
        }
      }
    }
  }

  /** Each kept element is the input's element at the matching kept position. */
  lemma {:induction false} KeepAtIndices<T>(xs: seq<T>, keep: T -> bool)
    ensures var r := Keep(xs, keep); var idx := KeptIndices(xs, keep);
      |idx| == |r| <= |xs| && forall j :: 0 <= j < |idx| ==> idx[j] < |xs| && r[j] == xs[idx[j]]
  {
    if |xs| != 0 {
      var n := |xs| - 1;
      var p := xs[..n];
      KeepAtIndices(p, keep);
      var r0, i0 := Keep(p, keep), KeptIndices(p, keep);
      var r, idx := Keep(xs, keep), KeptIndices(xs, keep);
      assert r == r0 + (if keep(xs[n]) then [xs[n]] else []);
      assert idx == i0 + (if keep(xs[n]) then [n] else []);
      assert forall j :: 0 <= j < |i0| ==> idx[j] == i0[j] && r[j] == r0[j] && xs[i0[j]] == p[i0[j]];
    }
  }

  /** The kept elements are the input's elements at strictly increasing positions, and those
      positions are exactly the ones whose element `keep` accepts. */
  lemma KeepInOrder<T>(xs: seq<T>, keep: T -> bool)
    ensures var r := Keep(xs, keep); var idx := KeptIndices(xs, keep);
      |idx| == |r| <= |xs|
      && (forall j :: 0 <= j < |idx| ==> idx[j] < |xs| && r[j] == xs[idx[j]])
      && (forall i, j :: 0 <= i < j < |idx| ==> idx[i] < idx[j])
      && (forall k :: 0 <= k < |xs| ==> (k in idx <==> keep(xs[k])))
  {
    KeptIndicesExactly(xs, keep);
    KeepAtIndices(xs, keep);
  }
}
