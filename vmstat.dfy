/** dcli's --vmstat option: getInt (Python's `int()` on a token, or nothing) and checkVmstat,
    which turns the vmstat options into a repeat count and the command sent to every host. */
module Vmstat {
  import opened Text
  import opened Wrappers

  predicate IsDigit(c: char) { '0' <= c <= '9' }

  function DigitValue(c: char): nat
    requires IsDigit(c)
  {
    c as int - '0' as int
  }

  /** The digits Python's `int()` accepts in base 10: ASCII digits, with single underscores
      allowed between two digits. */
  predicate IsDigitString(s: string)
    decreases |s|
  {
    |s| > 0 && IsDigit(s[0])
    && (|s| == 1
        || (IsDigit(s[1]) && IsDigitString(s[1..]))
        || (|s| >= 3 && s[1] == '_' && IsDigitString(s[2..])))
  }

  predicate AllDigits(s: string) { forall i :: 0 <= i < |s| ==> IsDigit(s[i]) }

  lemma {:induction false} AllDigitsIsDigitString(s: string)
    requires |s| > 0 && AllDigits(s)
    ensures IsDigitString(s)
    decreases |s|
  {
    if |s| > 1 {
      AllDigitsIsDigitString(s[1..]);
    }
  }

  /** The value of a digit string, underscores ignored. */
  function DecimalValue(s: string): nat
  {
    if |s| == 0 then 0
    else if IsDigit(s[|s| - 1]) then 10 * DecimalValue(s[..|s| - 1]) + DigitValue(s[|s| - 1])
    else DecimalValue(s[..|s| - 1])
  }

  /** `int(t)` on a string without surrounding whitespace: one optional sign, then digits. */
  function ParseInt(t: string): Option<int>
  {
    var negative := |t| > 0 && t[0] == '-';
    var body := if |t| > 0 && (t[0] == '-' || t[0] == '+') then t[1..] else t;
    var magnitude: int := DecimalValue(body);
    if IsDigitString(body) then Some(if negative then -magnitude else magnitude) else None
  }

  /** getInt: `int(s)`, or `None` where Python raises ValueError. Surrounding whitespace is
      ignored. */
  function GetInt(s: string): Option<int>
  {
    ParseInt(Strip(s))
  }

  lemma DigitCharValue(d: nat)
    requires d < 10
    ensures IsDigit(DigitChar(d)) && DigitValue(DigitChar(d)) == d
  {
  }

  lemma {:induction false} NatToStringValue(n: nat)
    ensures IsDigitString(NatToString(n)) && DecimalValue(NatToString(n)) == n
  {
    var s := NatToString(n);
    AllDigitsIsDigitString(s);
    DigitCharValue(n % 10);
    if n >= 10 {
      NatToStringValue(n / 10);
      assert s[..|s| - 1] == NatToString(n / 10);
    }
  }

  lemma StripUnpadded(s: string)
    requires |s| > 0 && !IsSpace(s[0]) && !IsSpace(s[|s| - 1])
    ensures Strip(s) == s
  {
  }

  /** A token of `split()` has no surrounding whitespace, so getInt reads it as it is. */
  lemma GetIntOfToken(s: string)
    requires IsToken(s)
    ensures GetInt(s) == ParseInt(s)
  {
    StripUnpadded(s);
  }

  /** `int` reads back what `str` prints. */
  lemma ParseIntRoundTrip(i: int)
    ensures ParseInt(IntToString(i)) == Some(i)
  {
    var s := IntToString(i);
    NatToStringValue(if i < 0 then -i else i);
    if i < 0 {
      assert s[1..] == NatToString(-i);
    }
  }

  /** getInt reads back what `str` prints. */
  lemma GetIntRoundTrip(i: int)
    ensures GetInt(IntToString(i)) == Some(i)
  {
    var s := IntToString(i);
    var t := NatToString(if i < 0 then -i else i);
    assert IsDigit(t[|t| - 1]);
    assert s[|s| - 1] == t[|t| - 1];
    StripUnpadded(s);
    ParseIntRoundTrip(i);
  }

  /** Options that do not report periodically. */
  predicate Forbidden(op: string)
  {
    op in ["-f", "-s", "-m", "-p", "-D", "-d", "-V"]
  }

  /** The numbers among the tokens, in order. Tokens of `split()` are read with ParseInt,
      which is getInt on them (GetIntOfToken). */
  function Numbers(tokens: seq<string>): seq<int>
  {
    if |tokens| == 0 then []
    else
      var last := tokens[|tokens| - 1];
      Numbers(tokens[..|tokens| - 1]) + (if ParseInt(last).Some? then [ParseInt(last).value] else [])
  }

  /** A token copied into the vmstat command: not a number and not `-n`, which dcli handles. */
  predicate Copied(op: string)
  {
    ParseInt(op).None? && op != "-n"
  }

  /** The copied tokens, in order. */
  function CopiedTokens(tokens: seq<string>): seq<string>
  {
    if |tokens| == 0 then []
    else
      var last := tokens[|tokens| - 1];
      CopiedTokens(tokens[..|tokens| - 1]) + (if Copied(last) then [last] else [])
  }

  /** Words, each followed by a space. */
  function Spaced(words: seq<string>): string
  {
    if |words| == 0 then "" else Spaced(words[..|words| - 1]) + words[|words| - 1] + " "
  }

  /** A token refused on its own: a non-periodic option or a number below 1. */
  predicate BadToken(op: string)
  {
    Forbidden(op) || (ParseInt(op).Some? && ParseInt(op).value < 1)
  }

  /** The tokens checkVmstat refuses: a bad token, or a third number. */
  predicate Rejected(tokens: seq<string>)
  {
    (exists j :: 0 <= j < |tokens| && BadToken(tokens[j])) || |Numbers(tokens)| > 2
  }

  /** The repeat count and the command sent to the hosts. */
  datatype VmstatPlan = VmstatPlan(repeat: int, command: string)

  /** What checkVmstat computes: refused options give nothing; otherwise the first number is
      the delay (1 when absent, with a single sample), the second the repeat count (-1, for
      "forever", when only a delay is given), and the other tokens except `-n` are passed on. */
  function PlanOf(vmstatOptions: string): Option<VmstatPlan>
  {
    var tokens := SplitWs(vmstatOptions);
    var ns := Numbers(tokens);
    var base := "vmstat " + Spaced(CopiedTokens(tokens));
    if Rejected(tokens) then None
    else if |ns| == 0 then Some(VmstatPlan(1, base + "1 "))
    else if |ns| == 1 then Some(VmstatPlan(-1, base + IntToString(ns[0]) + " "))
    else Some(VmstatPlan(ns[1], base + IntToString(ns[0]) + " "))
  }

  lemma {:induction false} NumbersPrefix(tokens: seq<string>, k: nat)
    requires k <= |tokens|
    ensures |Numbers(tokens[..k])| <= |Numbers(tokens)|
    decreases |tokens|
  {
    if k < |tokens| {
      var p := tokens[..|tokens| - 1];
      assert p[..k] == tokens[..k];
      NumbersPrefix(p, k);
    } else {
      assert tokens[..k] == tokens;
    }
  }

  /** The first `i` tokens are accepted, holding the numbers `ns` and copying `copied`. */
  predicate Scanned(tokens: seq<string>, i: nat, ns: seq<int>, copied: seq<string>)
  {
    i <= |tokens| && !Rejected(tokens[..i]) && ns == Numbers(tokens[..i]) && copied == CopiedTokens(tokens[..i])
  }

  /** One accepted token: the numbers and the copied words grow as the loop body says. */
  lemma AcceptStep(tokens: seq<string>, i: nat, ns: seq<int>, copied: seq<string>, ns': seq<int>, copied': seq<string>)
    requires i < |tokens| && Scanned(tokens, i, ns, copied) && !BadToken(tokens[i])
    requires ParseInt(tokens[i]).Some? ==> |ns| < 2
    requires ns' == ns + (if ParseInt(tokens[i]).Some? then [ParseInt(tokens[i]).value] else [])
    requires copied' == copied + (if Copied(tokens[i]) then [tokens[i]] else [])
    ensures Scanned(tokens, i + 1, ns', copied')
  {
    var q := tokens[..i + 1];
    assert q[..i] == tokens[..i] && q[i] == tokens[i];
    forall j | 0 <= j < i + 1 ensures !BadToken(q[j]) {
      if j < i {
        assert q[j] == tokens[..i][j];
      }
    }
  }

  /** Once every token is accepted, the scan has computed the numbers and copied words of all. */
  lemma ScannedAll(tokens: seq<string>, ns: seq<int>, copied: seq<string>)
    requires Scanned(tokens, |tokens|, ns, copied)
    ensures !Rejected(tokens) && ns == Numbers(tokens) && copied == CopiedTokens(tokens)
  {
    assert tokens[..|tokens|] == tokens;
  }

  /** A refused prefix refuses the whole. */
  lemma RejectedPrefix(tokens: seq<string>, k: nat)
    requires k <= |tokens| && Rejected(tokens[..k])
    ensures Rejected(tokens)
  {
    if |Numbers(tokens[..k])| > 2 {
      NumbersPrefix(tokens, k);
    } else {
      var j :| 0 <= j < k && BadToken(tokens[..k][j]);
      assert tokens[j] == tokens[..k][j];
    }
  }

  /** A refused token refuses the options. */
  lemma BadTokenRefused(tokens: seq<string>, i: nat)
    requires i < |tokens| && BadToken(tokens[i])
    ensures Rejected(tokens)
  {
  }

  /** A third number refuses the options. */
  lemma ThirdNumber(tokens: seq<string>, i: nat)
    requires i < |tokens| && |Numbers(tokens[..i])| == 2 && ParseInt(tokens[i]).Some?
    ensures Rejected(tokens)
  {
    var q := tokens[..i + 1];
    assert q[..i] == tokens[..i] && q[i] == tokens[i];
    assert |Numbers(q)| == 3;
    RejectedPrefix(tokens, i + 1);
  }

  lemma SpacedSnoc(words: seq<string>, w: string)
    ensures "vmstat " + Spaced(words + [w]) == "vmstat " + Spaced(words) + w + " "
  {
    assert (words + [w])[..|words|] == words;
  }

  /** checkVmstat's loop over the tokens of `vmstatOptions.split()`. */
  method CheckVmstat(vmstatOptions: string) returns (r: Option<VmstatPlan>)
    ensures r == PlanOf(vmstatOptions)
  {
    var repeat: Option<int> := None;
    var delay: Option<int> := None;
    var vmstatCommand := "vmstat ";
    var vmOpts := SplitWs(vmstatOptions);
    ghost var ns: seq<int> := [];
    ghost var copied: seq<string> := [];
    var i := 0;
    while i < |vmOpts|
      invariant Scanned(vmOpts, i, ns, copied)
      invariant vmstatCommand == "vmstat " + Spaced(copied)
      invariant |ns| <= 2
      invariant delay == (if |ns| >= 1 then Some(ns[0]) else None)
      invariant repeat == (if |ns| == 2 then Some(ns[1]) else None)
    {
      var op := vmOpts[i];
      ghost var ns0, copied0 := ns, copied;
      if Forbidden(op) {
        BadTokenRefused(vmOpts, i);
        return None;
      }
      var num := ParseInt(op);
      if num.Some? && num.value < 1 {
        BadTokenRefused(vmOpts, i);
        return None;
      }
      if num.Some? {
        if repeat.Some? {
          ThirdNumber(vmOpts, i);
          return None;
        } else if delay.Some? {
          repeat := num;
        } else {
          delay := num;
        }
        ns := ns + [num.value];
      } else if op != "-n" {
        SpacedSnoc(copied, op);
        vmstatCommand := vmstatCommand + op + " ";
        copied := copied + [op];
      }
      AcceptStep(vmOpts, i, ns0, copied0, ns, copied);
      i := i + 1;
    }
    ScannedAll(vmOpts, ns, copied);
    if delay.Some? {
      vmstatCommand := vmstatCommand + IntToString(delay.value) + " ";
      if repeat.None? {
        repeat := Some(-1);
      }
    } else {
      vmstatCommand := vmstatCommand + "1 ";
      repeat := Some(1);
    }
    return Some(VmstatPlan(repeat.value, vmstatCommand));
  }

  /** Every number checkVmstat accepts is at least 1. */
  lemma {:induction false} NumbersOfAccepted(tokens: seq<string>)
    requires !Rejected(tokens)
    ensures forall k :: 0 <= k < |Numbers(tokens)| ==> Numbers(tokens)[k] >= 1
  {
    if |tokens| != 0 {
      var p := tokens[..|tokens| - 1];
      assert !Rejected(p) by {
        NumbersPrefix(tokens, |tokens| - 1);
        forall j | 0 <= j < |p| ensures p[j] == tokens[j] { }
      }
      NumbersOfAccepted(p);
      assert !BadToken(tokens[|tokens| - 1]);
    }
  }

  /** So the repeat count is -1 ("forever") or at least 1, and the command starts with
      "vmstat " and ends with the delay and a space. */
  lemma PlanShape(vmstatOptions: string)
    ensures var r := PlanOf(vmstatOptions);
      r.Some? ==> (r.value.repeat == -1 || r.value.repeat >= 1)
                  && StartsWith(r.value.command, "vmstat ") && EndsWith(r.value.command, " ")
  {
    var tokens := SplitWs(vmstatOptions);
    if !Rejected(tokens) {
      NumbersOfAccepted(tokens);
    }
  }

  /** `-n` and the numbers are never passed on: every copied token is a token of the options
      that is neither. */
  lemma {:induction false} CopiedTokensAreOptions(tokens: seq<string>)
    ensures forall x :: x in CopiedTokens(tokens) ==> x in tokens && x != "-n" && ParseInt(x).None?
  {
    if |tokens| != 0 {
      var p := tokens[..|tokens| - 1];
      CopiedTokensAreOptions(p);
      forall x | x in CopiedTokens(tokens) ensures x in tokens {
        if x in CopiedTokens(p) {
          var j :| 0 <= j < |p| && p[j] == x;
          assert tokens[j] == x;
        }
      }
    }
  }

  /** Every option token that is neither a number nor `-n` is passed on. */
  lemma {:induction false} OptionsAreCopied(tokens: seq<string>, k: nat)
    requires k < |tokens| && Copied(tokens[k])
    ensures tokens[k] in CopiedTokens(tokens)
  {
    var p := tokens[..|tokens| - 1];
    if k < |p| {
      assert p[k] == tokens[k];
      OptionsAreCopied(p, k);
    }
  }

  /** Options without a token plan one sample with a one-second delay. */
  lemma NoTokensPlan(vmstatOptions: string)
    requires SplitWs(vmstatOptions) == []
    ensures PlanOf(vmstatOptions) == Some(VmstatPlan(1, "vmstat 1 "))
  {
    var tokens := SplitWs(vmstatOptions);
    assert Numbers(tokens) == [] && CopiedTokens(tokens) == [] && Spaced([]) == "";
    assert !Rejected(tokens);
    assert "vmstat " + Spaced([]) + "1 " == "vmstat 1 ";
  }

  /** With no options, the code sends "vmstat 1 " once (the comment's table says "vmstat"). */
  lemma EmptyOptions()
    ensures PlanOf("") == Some(VmstatPlan(1, "vmstat 1 "))
  {
    assert SplitWs("") == [] by {
      assert LStrip("") == "";
    }
    NoTokensPlan("");
  }
}
