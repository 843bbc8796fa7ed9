/** String operations of the JavaScript sources. */
module JsText {

  /** What `\s` matches and `trim()` removes: white space and line terminators. */
  predicate IsSpace(c: char) {
    || c == '\t' || c == '\n' || c == '\U{000B}' || c == '\U{000C}' || c == '\r' || c == ' '
    || c == '\U{00A0}' || c == '\U{1680}' || '\U{2000}' <= c <= '\U{200A}'
    || c == '\U{2028}' || c == '\U{2029}' || c == '\U{202F}' || c == '\U{205F}' || c == '\U{3000}' || c == '\U{FEFF}'
  }

  predicate IsBlank(s: string) { forall i :: 0 <= i < |s| ==> IsSpace(s[i]) }

  predicate IsTrimmed(s: string) { s == "" || (!IsSpace(s[0]) && !IsSpace(s[|s| - 1])) }

  function TrimStart(s: string): string {
    if s != "" && IsSpace(s[0]) then TrimStart(s[1..]) else s
  }

  function TrimEnd(s: string): string {
    if s != "" && IsSpace(s[|s| - 1]) then TrimEnd(s[..|s| - 1]) else s
  }

  lemma {:induction false} TrimStartCuts(s: string)
    ensures var r := TrimStart(s);
      |r| <= |s| && r == s[|s| - |r|..] && IsBlank(s[..|s| - |r|]) && (r == "" || !IsSpace(r[0]))
  {
    if s != "" && IsSpace(s[0]) {
      TrimStartCuts(s[1..]);
      var r := TrimStart(s);
      assert s[..|s| - |r|] == [s[0]] + s[1..][..|s| - 1 - |r|];
    }
  }

  lemma {:induction false} TrimEndCuts(s: string)
    ensures var r := TrimEnd(s);
      |r| <= |s| && r == s[..|r|] && IsBlank(s[|r|..]) && (r == "" || !IsSpace(r[|r| - 1]))
  {
    if s != "" && IsSpace(s[|s| - 1]) {
      var t := s[..|s| - 1];
      TrimEndCuts(t);
      var r := TrimEnd(s);
      assert s[|r|..] == t[|r|..] + [s[|s| - 1]];
    }
  }

  function Trim(s: string): string { TrimEnd(TrimStart(s)) }

  /** `trim()` cuts blank ends off, and as much as it can. */
  lemma {:induction false} TrimCuts(s: string) returns (i: nat, j: nat)
    ensures i <= j <= |s| && Trim(s) == s[i..j] && IsTrimmed(Trim(s))
    ensures IsBlank(s[..i]) && IsBlank(s[j..])
  {
    var t := TrimStart(s);
    var r := TrimEnd(t);
    TrimStartCuts(s);
    TrimEndCuts(t);
    i := |s| - |t|;
    j := i + |r|;
    assert s[i..j] == s[i..][..|r|];
    assert s[j..] == t[|r|..];
    assert r != "" ==> r[0] == t[0];
  }

  lemma {:induction false} TrimProperties(s: string)
    ensures IsTrimmed(Trim(s))
    ensures Trim(s) == "" <==> IsBlank(s)
    ensures forall c :: c in Trim(s) ==> c in s
    ensures IsTrimmed(s) ==> Trim(s) == s
  {
    var i, j := TrimCuts(s);
    if i == j { assert s == s[..i] + s[j..]; }
    if i < j { assert s[i] == Trim(s)[0]; }
  }

  lemma {:induction false} TrimAfterSpace(v: string)
    requires v != "" && IsTrimmed(v)
    ensures Trim(" " + v) == v
  {
    assert (" " + v)[1..] == v;
    assert TrimStart(" " + v) == TrimStart(v) == v;
  }

  /** `s.split(c)` on a single character. */
  function Split(s: string, c: char): (r: seq<string>)
    ensures |r| >= 1
    ensures forall i :: 0 <= i < |r| ==> c !in r[i]
  {
    if s == "" then [""]
    else
      var r := Split(s[1..], c);
      if s[0] == c then [""] + r else [[s[0]] + r[0]] + r[1..]
  }

  lemma {:induction false} SplitPlain(s: string, c: char)
    requires c !in s
    ensures Split(s, c) == [s]
  {
    if s != "" {
      SplitPlain(s[1..], c);
      assert [s[0]] + s[1..] == s;
    }
  }

  lemma {:induction false} SplitAt(a: string, c: char, b: string)
    requires c !in a
    ensures Split(a + [c] + b, c) == [a] + Split(b, c)
  {
    var s := a + [c] + b;
    if a == "" {
      assert s[1..] == b;
    } else {
      assert s[1..] == a[1..] + [c] + b;
      SplitAt(a[1..], c, b);
      assert [a[0]] + a[1..] == a;
    }
  }

  /** `parts.join(sep)`. */
  function Join(parts: seq<string>, sep: string): string {
    if parts == [] then ""
    else if |parts| == 1 then parts[0]
    else parts[0] + sep + Join(parts[1..], sep)
  }

  /** Splitting undoes joining pieces free of the separator. */
  lemma {:induction false} SplitJoin(parts: seq<string>, c: char)
    requires parts != [] && forall i :: 0 <= i < |parts| ==> c !in parts[i]
    ensures Split(Join(parts, [c]), c) == parts
  {
    if |parts| == 1 {
      SplitPlain(parts[0], c);
    } else {
      var rest := Join(parts[1..], [c]);
      SplitJoin(parts[1..], c);
      SplitAt(parts[0], c, rest);
      assert Join(parts, [c]) == parts[0] + [c] + rest;
      assert parts == [parts[0]] + parts[1..];
    }
  }

  /** Joining undoes splitting. */
  lemma {:induction false} JoinSplit(s: string, c: char)
    ensures Join(Split(s, c), [c]) == s
  {
    if s != "" {
      JoinSplit(s[1..], c);
      var r := Split(s[1..], c);
      if s[0] == c {
        assert ([""] + r)[1..] == r;
      } else {
        assert ([[s[0]] + r[0]] + r[1..])[1..] == r[1..];
        assert [s[0]] + s[1..] == s;
      }
    }
  }

  function LowerChar(c: char): char {
    if 'A' <= c <= 'Z' then ((c as int - 'A' as int) + 'a' as int) as char else c
  }

  /** `toLowerCase()` on ASCII letters. */
  function ToLower(s: string): (r: string)
    ensures |r| == |s| && forall i :: 0 <= i < |r| ==> r[i] == LowerChar(s[i])
  {
    seq(|s|, i requires 0 <= i < |s| => LowerChar(s[i]))
  }

  /** What stands before the first `c`, or everything. */
  function Before(s: string, c: char): (r: string)
    ensures |r| <= |s|
  {
    if s == "" || s[0] == c then "" else [s[0]] + Before(s[1..], c)
  }

  /** What stands behind the first `c`, or nothing. */
  function Behind(s: string, c: char): string {
    if s == "" then "" else if s[0] == c then s[1..] else Behind(s[1..], c)
  }

  lemma {:induction false} BeforeNone(s: string, c: char)
    requires c !in s
    ensures Before(s, c) == s && Behind(s, c) == ""
  {
    if s != "" {
      BeforeNone(s[1..], c);
      assert [s[0]] + s[1..] == s;
    }
  }

  lemma {:induction false} BeforeAt(a: string, c: char, b: string)
    requires c !in a
    ensures Before(a + [c] + b, c) == a && Behind(a + [c] + b, c) == b
  {
    var s := a + [c] + b;
    if a != "" {
      assert s[1..] == a[1..] + [c] + b;
      BeforeAt(a[1..], c, b);
      assert [a[0]] + a[1..] == a;
    } else {
      assert s[1..] == b;
    }
  }

  // ------------------------------------------------------------------- numbers

  predicate IsDigit(c: char) { '0' <= c <= '9' }

  predicate AllDigits(s: string) { forall i :: 0 <= i < |s| ==> IsDigit(s[i]) }

  function DigitOf(n: nat): (c: char)
    requires n < 10
    ensures IsDigit(c) && ValueOf(c) == n
  {
    n as char + '0'
  }

  function ValueOf(c: char): nat
    requires IsDigit(c)
  {
    c as int - '0' as int
  }

  /** `String(n)`. */
  function Decimal(n: nat): (s: string)
    ensures s != "" && AllDigits(s)
  {
    if n < 10 then [DigitOf(n)] else Decimal(n / 10) + [DigitOf(n % 10)]
  }

  /** `Number(s)` of a string of digits. */
  function NumberOf(s: string): nat
    requires AllDigits(s)
  {
    if s == "" then 0 else 10 * NumberOf(s[..|s| - 1]) + ValueOf(s[|s| - 1])
  }

  lemma {:induction false} NumberOfDecimal(n: nat)
    ensures NumberOf(Decimal(n)) == n
  {
    if n >= 10 {
      NumberOfDecimal(n / 10);
      assert Decimal(n)[..|Decimal(n)| - 1] == Decimal(n / 10);
    } else {
      assert Decimal(n)[..0] == "";
    }
  }
}
