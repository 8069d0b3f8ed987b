/** The pieces of Python's `str` behaviour the scripts rely on:
    `split(sep)`, `split()`, `splitlines()`, `strip()`, `lower()`,
    `int(...)` and decimal formatting (`str(n)`, `f'{n:02d}'`). */
module Strings {
  import opened Wrappers

  /** `sep.join(parts)`. */
  function JoinWith(parts: seq<string>, sep: char): string
  {
    if |parts| == 0 then []
    else if |parts| == 1 then parts[0]
    else parts[0] + [sep] + JoinWith(parts[1..], sep)
  }

  /** `s.split(sep)` for a one-character separator: there is always at
      least one part, and no part contains the separator. */
  function Split(s: string, sep: char): (parts: seq<string>)
    ensures |parts| >= 1
    ensures forall i :: 0 <= i < |parts| ==> sep !in parts[i]
  {
    if s == [] then [[]]
    else
      var rest := Split(s[1..], sep);
      if s[0] == sep then [[]] + rest
      else [[s[0]] + rest[0]] + rest[1..]
  }

  /** Joining the parts of a split with the same separator gives back the
      original string. */
  lemma {:induction false} JoinSplit(s: string, sep: char)
    ensures JoinWith(Split(s, sep), sep) == s
  {
    if s != [] {
      var rest := Split(s[1..], sep);
      JoinSplit(s[1..], sep);
      if s[0] != sep && |rest| > 1 {
        assert JoinWith(rest, sep) == rest[0] + [sep] + JoinWith(rest[1..], sep);
      }
    }
  }

  lemma {:induction false} SplitNoSep(p: string, sep: char)
    requires sep !in p
    ensures Split(p, sep) == [p]
  {
    if p != [] {
      SplitNoSep(p[1..], sep);
      assert [p[0]] + p[1..] == p;
    }
  }

  lemma {:induction false} SplitAfterPart(p: string, r: string, sep: char)
    requires sep !in p
    ensures Split(p + [sep] + r, sep) == [p] + Split(r, sep)
  {
    if p == [] {
      assert p + [sep] + r == [sep] + r;
      assert ([sep] + r)[1..] == r;
    } else {
      assert (p + [sep] + r)[1..] == p[1..] + [sep] + r;
      SplitAfterPart(p[1..], r, sep);
      assert [p[0]] + p[1..] == p;
    }
  }

  /** Splitting a join of separator-free parts gives back the parts. */
  lemma {:induction false} SplitJoin(parts: seq<string>, sep: char)
    requires |parts| >= 1
    requires forall i :: 0 <= i < |parts| ==> sep !in parts[i]
    ensures Split(JoinWith(parts, sep), sep) == parts
  {
    if |parts| == 1 {
      SplitNoSep(parts[0], sep);
    } else {
      SplitJoin(parts[1..], sep);
      SplitAfterPart(parts[0], JoinWith(parts[1..], sep), sep);
      assert [parts[0]] + parts[1..] == parts;
    }
  }

  /** The length of the longest prefix of `s` none of whose characters
      satisfies `stop`. */
  function PrefixLen(s: string, stop: char -> bool): (n: nat)
    ensures n <= |s|
    ensures forall i :: 0 <= i < n ==> !stop(s[i])
    ensures n < |s| ==> stop(s[n])
  {
    if s == [] || stop(s[0]) then 0 else 1 + PrefixLen(s[1..], stop)
  }

  lemma {:induction false} PrefixLenOf(t: string, r: string, stop: char -> bool)
    requires forall i :: 0 <= i < |t| ==> !stop(t[i])
    requires r == [] || stop(r[0])
    ensures PrefixLen(t + r, stop) == |t|
  {
    if t != [] {
      assert (t + r)[1..] == t[1..] + r;
      PrefixLenOf(t[1..], r, stop);
    } else {
      assert t + r == r;
    }
  }

  /** The characters Python's `str.split()`, `str.strip()` and `int()`
      treat as whitespace. */
  predicate IsSpace(c: char)
  {
    c == ' ' || c == '\t' || c == '\n' || c == '\r' || c == '\U{0B}' || c == '\U{0C}'
    || ('\U{1C}' <= c <= '\U{1F}') || c == '\U{85}' || c == '\U{A0}' || c == '\U{1680}'
    || ('\U{2000}' <= c <= '\U{200A}') || c == '\U{2028}' || c == '\U{2029}'
    || c == '\U{202F}' || c == '\U{205F}' || c == '\U{3000}'
  }

  predicate NoSpace(t: string)
  {
    forall i :: 0 <= i < |t| ==> !IsSpace(t[i])
  }

  /** `s.split()`: the maximal runs of non-whitespace characters. */
  function Tokens(s: string): (ts: seq<string>)
    decreases |s|
    ensures forall i :: 0 <= i < |ts| ==> ts[i] != [] && NoSpace(ts[i])
  {
    if s == [] then []
    else if IsSpace(s[0]) then Tokens(s[1..])
    else
      var n := PrefixLen(s, IsSpace);
      [s[..n]] + Tokens(s[n..])
  }

  /** Tokens joined by single spaces split back into the same tokens. */
  lemma {:induction false} TokensOfJoin(ts: seq<string>)
    requires forall i :: 0 <= i < |ts| ==> ts[i] != [] && NoSpace(ts[i])
    ensures Tokens(JoinWith(ts, ' ')) == ts
  {
    if |ts| == 1 {
      PrefixLenOf(ts[0], [], IsSpace);
      assert ts[0] + [] == ts[0];
      assert ts[0][|ts[0]|..] == [];
    } else if |ts| > 1 {
      var rest := JoinWith(ts[1..], ' ');
      var s := ts[0] + [' '] + rest;
      PrefixLenOf(ts[0], [' '] + rest, IsSpace);
      assert s == ts[0] + ([' '] + rest);
      assert s[..|ts[0]|] == ts[0];
      assert s[|ts[0]|..] == [' '] + rest;
      assert ([' '] + rest)[1..] == rest;
      TokensOfJoin(ts[1..]);
      assert [ts[0]] + ts[1..] == ts;
    }
  }

  /** The characters at which Python's `str.splitlines()` ends a line. */
  predicate IsLineBreak(c: char)
  {
    c == '\n' || c == '\r' || c == '\U{0B}' || c == '\U{0C}' || c == '\U{1C}'
    || c == '\U{1D}' || c == '\U{1E}' || c == '\U{85}' || c == '\U{2028}' || c == '\U{2029}'
  }

  predicate NoLineBreak(t: string)
  {
    forall i :: 0 <= i < |t| ==> !IsLineBreak(t[i])
  }

  /** `s.splitlines()`: "\r\n" counts as one break, and a final break does
      not start an empty last line. */
  function SplitLines(s: string): (lines: seq<string>)
    decreases |s|
    ensures forall i :: 0 <= i < |lines| ==> NoLineBreak(lines[i])
  {
    if s == [] then []
    else
      var n := PrefixLen(s, IsLineBreak);
      if n == |s| then [s]
      else
        var skip := if s[n] == '\r' && n + 1 < |s| && s[n + 1] == '\n' then 2 else 1;
        [s[..n]] + SplitLines(s[n + skip..])
  }

  /** The text of a file whose every line ends with "\n". */
  function Terminated(lines: seq<string>): string
  {
    if lines == [] then [] else lines[0] + "\n" + Terminated(lines[1..])
  }

  /** Lines written one per "\n"-terminated line are read back unchanged. */
  lemma {:induction false} SplitLinesTerminated(lines: seq<string>)
    requires forall i :: 0 <= i < |lines| ==> NoLineBreak(lines[i])
    ensures SplitLines(Terminated(lines)) == lines
  {
    if lines != [] {
      var l := lines[0];
      var rest := Terminated(lines[1..]);
      var s := l + "\n" + rest;
      PrefixLenOf(l, "\n" + rest, IsLineBreak);
      assert s == l + ("\n" + rest);
      assert s[..|l|] == l;
      assert s[|l|] == '\n';
      assert s[|l| + 1..] == rest;
      SplitLinesTerminated(lines[1..]);
      assert [l] + lines[1..] == lines;
    }
  }

  function TrimLeft(s: string): (r: string)
    ensures |r| <= |s|
  {
    if s != [] && IsSpace(s[0]) then TrimLeft(s[1..]) else s
  }

  function TrimRight(s: string): (r: string)
    ensures |r| <= |s|
  {
    if s != [] && IsSpace(s[|s| - 1]) then TrimRight(s[..|s| - 1]) else s
  }

  /** `s.strip()`. */
  function Strip(s: string): string
  {
    TrimRight(TrimLeft(s))
  }

  function LowerChar(c: char): char
  {
    if 'A' <= c <= 'Z' then (c as int + 32) as char else c
  }

  /** `s.lower()` on the ASCII letters. */
  function Lower(s: string): (r: string)
    ensures |r| == |s|
    ensures forall i :: 0 <= i < |s| ==> r[i] == LowerChar(s[i])
  {
    seq(|s|, i requires 0 <= i < |s| => LowerChar(s[i]))
  }

  predicate IsDigit(c: char)
  {
    '0' <= c <= '9'
  }

  predicate AllDigits(s: string)
  {
    forall i :: 0 <= i < |s| ==> IsDigit(s[i])
  }

  function DigitChar(d: nat): (c: char)
    requires d < 10
    ensures IsDigit(c)
  {
    (d + 48) as char
  }

  function DigitValue(c: char): (d: nat)
    requires IsDigit(c)
    ensures d < 10
  {
    c as int - 48
  }

  /** The decimal digits of `n`, without leading zeros. */
  function NatStr(n: nat): (s: string)
    ensures |s| >= 1 && AllDigits(s)
  {
    if n < 10 then [DigitChar(n)] else NatStr(n / 10) + [DigitChar(n % 10)]
  }

  /** The value of a string of decimal digits. */
  function DigitsValue(s: string): nat
    requires AllDigits(s)
  {
    if s == [] then 0 else DigitsValue(s[..|s| - 1]) * 10 + DigitValue(s[|s| - 1])
  }

  lemma {:induction false} DigitsOfNatStr(n: nat)
    ensures DigitsValue(NatStr(n)) == n
  {
    if n >= 10 {
      var s := NatStr(n);
      assert s[..|s| - 1] == NatStr(n / 10);
      DigitsOfNatStr(n / 10);
    }
  }

  /** `str(i)` for an integer: an optional minus sign, then the digits. */
  function IntStr(i: int): string
  {
    if i < 0 then "-" + NatStr(-i) else NatStr(i)
  }

  /** `int(s)`: surrounding whitespace, an optional sign and at least one
      ASCII digit.  `None` stands for the `ValueError` Python raises. */
  function ParseInt(s: string): (r: Option<int>)
  {
    var t := Strip(s);
    if t == [] then None
    else
      var neg := t[0] == '-';
      var digits := if t[0] == '-' || t[0] == '+' then t[1..] else t;
      if digits == [] || !AllDigits(digits) then None
      else
        var v: int := DigitsValue(digits);
        Some(if neg then -v else v)
  }

  lemma StripNoSpace(s: string)
    requires s != [] && !IsSpace(s[0]) && !IsSpace(s[|s| - 1])
    ensures Strip(s) == s
  {
  }

  /** `int(str(i)) == i`. */
  lemma ParseIntStr(i: int)
    ensures ParseInt(IntStr(i)) == Some(i)
  {
    var s := IntStr(i);
    StripNoSpace(s);
    if i < 0 {
      assert s[1..] == NatStr(-i);
      DigitsOfNatStr(-i);
    } else {
      DigitsOfNatStr(i);
    }
  }

  /** Distinct integers have distinct decimal forms. */
  lemma IntStrInjective(a: int, b: int)
    requires IntStr(a) == IntStr(b)
    ensures a == b
  {
    ParseIntStr(a);
    ParseIntStr(b);
  }

  /** `[int(s) for s in parts]`: every part parsed, or `None` as soon as one
      part is not an integer. */
  function ParseInts(parts: seq<string>): (r: Option<seq<int>>)
    ensures r.Some? ==> (|r.value| == |parts| &&
      forall i :: 0 <= i < |parts| ==> ParseInt(parts[i]) == Some(r.value[i]))
  {
    if parts == [] then Some([])
    else
      match ParseInt(parts[0])
      case None => None
      case Some(v) =>
        match ParseInts(parts[1..])
        case None => None
        case Some(vs) => Some([v] + vs)
  }

  /** The list comprehension fails exactly when some part is not an integer. */
  lemma {:induction false} ParseIntsNone(parts: seq<string>)
    ensures ParseInts(parts).None? <==> exists i :: 0 <= i < |parts| && ParseInt(parts[i]).None?
  {
    if parts != [] && ParseInt(parts[0]).Some? {
      ParseIntsNone(parts[1..]);
      if ParseInts(parts[1..]).None? {
        var i :| 0 <= i < |parts[1..]| && ParseInt(parts[1..][i]).None?;
        assert ParseInt(parts[i + 1]).None?;
      } else {
        forall i | 0 <= i < |parts|
          ensures ParseInt(parts[i]).Some?
        {
          if i > 0 {
            assert parts[i] == parts[1..][i - 1];
          }
        }
      }
    }
  }

  /** Parsing a list of decimal forms gives back the integers. */
  lemma {:induction false} ParseIntsOfStrs(parts: seq<string>, xs: seq<int>)
    requires |parts| == |xs|
    requires forall i :: 0 <= i < |xs| ==> parts[i] == IntStr(xs[i])
    ensures ParseInts(parts) == Some(xs)
  {
    if parts != [] {
      ParseIntStr(xs[0]);
      ParseIntsOfStrs(parts[1..], xs[1..]);
      assert xs == [xs[0]] + xs[1..];
    }
  }

  /** Decimal forms hold only digits and a leading minus sign. */
  lemma IntStrChars(i: int, c: char)
    requires !IsDigit(c) && c != '-'
    ensures c !in IntStr(i)
  {
    var s := IntStr(i);
    if i < 0 {
      assert s == "-" + NatStr(-i);
      assert forall k :: 1 <= k < |s| ==> s[k] == NatStr(-i)[k - 1];
    }
  }

  /** A common prefix and suffix can be cancelled. */
  lemma CancelAffixes(p: string, x: string, y: string, q: string)
    requires p + x + q == p + y + q
    ensures x == y
  {
    var s := p + x + q;
    assert |x| == |y|;
    assert x == s[|p|..|p| + |x|];
    assert y == (p + y + q)[|p|..|p| + |y|];
  }

  /** `f'{n:02d}'`: at least two digits, zero-padded. */
  function Pad2(n: nat): (s: string)
    ensures |s| >= 2 && AllDigits(s)
    ensures DigitsValue(s) == n
  {
    DigitsOfNatStr(n);
    if n < 10 then
      var s := "0" + NatStr(n);
      assert s[..|s| - 1] == "0";
      assert DigitsValue("0") == 0 by { assert "0"[..0] == []; }
      s
    else NatStr(n)
  }
}
