/** The pieces of Go's `strings` and `strconv` packages that the modelled code relies on,
    defined over `string` (a sequence of runes) and proved against their documented behaviour. */
module GoStrings {

  // ---------------------------------------------------------------------------------------
  // strings.Join, strings.Split

  /** strings.Join: the parts with `sep` between consecutive ones. */
  function Join(parts: seq<string>, sep: string): string
  {
    if |parts| == 0 then ""
    else if |parts| == 1 then parts[0]
    else parts[0] + sep + Join(parts[1..], sep)
  }

  /** `sep` occurs in `s` at position `j`. */
  predicate OccursAt(s: string, sep: string, j: int)
  {
    0 <= j && j + |sep| <= |s| && s[j..j + |sep|] == sep
  }

  /** The first position at or after `k` where `sep` occurs in `s`, or -1. */
  function IndexFrom(s: string, sep: string, k: nat): (i: int)
    requires |sep| > 0
    requires k <= |s|
    ensures i == -1 || (k <= i && OccursAt(s, sep, i))
    ensures forall j :: k <= j && (i == -1 || j < i) ==> !OccursAt(s, sep, j)
    decreases |s| - k
  {
    if k + |sep| > |s| then -1
    else if s[k..k + |sep|] == sep then k
    else IndexFrom(s, sep, k + 1)
  }

  /** strings.Index for a non-empty separator. */
  function Index(s: string, sep: string): (i: int)
    requires |sep| > 0
    ensures i == -1 || OccursAt(s, sep, i)
    ensures forall j :: 0 <= j && (i == -1 || j < i) ==> !OccursAt(s, sep, j)
  {
    IndexFrom(s, sep, 0)
  }

  /** strings.Split for a non-empty separator: the pieces between the non-overlapping
      occurrences of `sep`, found from the left. */
  function Split(s: string, sep: string): (parts: seq<string>)
    requires |sep| > 0
    ensures |parts| >= 1
    decreases |s|
  {
    var i := Index(s, sep);
    if i < 0 then [s] else [s[..i]] + Split(s[i + |sep|..], sep)
  }

  /** Joining the pieces of a split with the same separator gives the text back. */
  lemma {:induction false} JoinSplit(s: string, sep: string)
    requires |sep| > 0
    ensures Join(Split(s, sep), sep) == s
    decreases |s|
  {
    var i := Index(s, sep);
    if i >= 0 {
      var rest := s[i + |sep|..];
      var tail := Split(rest, sep);
      JoinSplit(rest, sep);
      JoinCons(s[..i], tail, sep);
      assert s == s[..i] + sep + rest;
    }
  }

  lemma JoinCons(head: string, tail: seq<string>, sep: string)
    requires |tail| >= 1
    ensures Join([head] + tail, sep) == head + sep + Join(tail, sep)
  {
    assert ([head] + tail)[1..] == tail;
  }

  /** Joining one more part appends the separator and that part. */
  lemma {:induction false} JoinSnoc(parts: seq<string>, last: string, sep: string)
    requires |parts| >= 1
    ensures Join(parts + [last], sep) == Join(parts, sep) + sep + last
    decreases |parts|
  {
    if |parts| == 1 {
      assert (parts + [last])[1..] == [last];
    } else {
      assert (parts + [last])[1..] == parts[1..] + [last];
      JoinSnoc(parts[1..], last, sep);
    }
  }

  /** No piece of a split contains the separator. */
  lemma {:induction false} SplitPiecesFree(s: string, sep: string)
    requires |sep| > 0
    ensures forall k :: 0 <= k < |Split(s, sep)| ==> Index(Split(s, sep)[k], sep) == -1
    decreases |s|
  {
    var i := Index(s, sep);
    if i >= 0 {
      var rest := s[i + |sep|..];
      SplitPiecesFree(rest, sep);
      var head := s[..i];
      forall j | 0 <= j ensures !OccursAt(head, sep, j) {
        if OccursAt(head, sep, j) {
          assert head[j..j + |sep|] == s[j..j + |sep|];
          assert OccursAt(s, sep, j);
        }
      }
    }
  }

  // ---------------------------------------------------------------------------------------
  // strings.TrimSpace, strings.Contains, strings.HasSuffix, strings.ReplaceAll

  /** unicode.IsSpace: the Latin-1 spaces and the other White_Space code points. */
  predicate IsSpace(c: char)
  {
    var n := c as int;
    n == 0x09 || n == 0x0A || n == 0x0B || n == 0x0C || n == 0x0D || n == 0x20
    || n == 0x85 || n == 0xA0 || n == 0x1680 || (0x2000 <= n <= 0x200A)
    || n == 0x2028 || n == 0x2029 || n == 0x202F || n == 0x205F || n == 0x3000
  }

  function TrimLeft(s: string): string
  {
    if |s| > 0 && IsSpace(s[0]) then TrimLeft(s[1..]) else s
  }

  function TrimRight(s: string): string
  {
    if |s| > 0 && IsSpace(s[|s| - 1]) then TrimRight(s[..|s| - 1]) else s
  }

  /** TrimLeft drops the leading white space and keeps the rest. */
  lemma {:induction false} TrimLeftDropsSpaces(s: string)
    ensures var r := TrimLeft(s);
      && |r| <= |s| && r == s[|s| - |r|..]
      && (r == [] || !IsSpace(r[0]))
      && (forall k :: 0 <= k < |s| - |r| ==> IsSpace(s[k]))
  {
    if |s| > 0 && IsSpace(s[0]) {
      TrimLeftDropsSpaces(s[1..]);
    }
  }

  /** TrimRight drops the trailing white space and keeps the rest. */
  lemma {:induction false} TrimRightDropsSpaces(s: string)
    ensures var r := TrimRight(s);
      && |r| <= |s| && r == s[..|r|]
      && (r == [] || !IsSpace(r[|r| - 1]))
      && (forall k :: |r| <= k < |s| ==> IsSpace(s[k]))
  {
    if |s| > 0 && IsSpace(s[|s| - 1]) {
      TrimRightDropsSpaces(s[..|s| - 1]);
    }
  }

  /** strings.TrimSpace: leading and trailing white space removed. */
  function TrimSpace(s: string): string
  {
    TrimRight(TrimLeft(s))
  }

  /** Where the text TrimSpace keeps starts inside its argument. */
  function TrimStart(s: string): nat
  {
    TrimLeftDropsSpaces(s);
    |s| - |TrimLeft(s)|
  }

  /** What TrimSpace removes is white space at the two ends, and what it keeps starts and
      ends with a non-space (or is empty). */
  lemma TrimSpaceIsInfix(s: string)
    ensures var r, i := TrimSpace(s), TrimStart(s);
      && i + |r| <= |s| && r == s[i..i + |r|]
      && (forall k :: 0 <= k < i ==> IsSpace(s[k]))
      && (forall k :: i + |r| <= k < |s| ==> IsSpace(s[k]))
      && (r == [] || (!IsSpace(r[0]) && !IsSpace(r[|r| - 1])))
  {
    var l := TrimLeft(s);
    TrimLeftDropsSpaces(s);
    var r := TrimRight(l);
    TrimRightDropsSpaces(l);
    var i := |s| - |l|;
    assert r == s[i..i + |r|];
    assert forall k :: i + |r| <= k < |s| ==> s[k] == l[k - i];
    if r != [] {
      assert r[0] == l[0];
    }
  }

  /** TrimSpace gives the empty text exactly when every character is white space. */
  lemma TrimSpaceEmptyIff(s: string)
    ensures TrimSpace(s) == "" <==> forall k :: 0 <= k < |s| ==> IsSpace(s[k])
  {
    TrimSpaceIsInfix(s);
  }

  /** strings.Contains. */
  predicate Contains(s: string, sub: string)
  {
    exists j | 0 <= j <= |s| - |sub| :: OccursAt(s, sub, j)
  }

  /** strings.HasSuffix. */
  predicate HasSuffix(s: string, suffix: string)
  {
    |suffix| <= |s| && s[|s| - |suffix|..] == suffix
  }

  /** strings.ReplaceAll(s, "\n", " "). */
  function NewlinesToSpaces(s: string): (r: string)
    ensures |r| == |s|
    ensures forall k :: 0 <= k < |s| ==> r[k] == (if s[k] == '\n' then ' ' else s[k])
  {
    if s == [] then [] else [if s[0] == '\n' then ' ' else s[0]] + NewlinesToSpaces(s[1..])
  }

  // ---------------------------------------------------------------------------------------
  // fmt "%d" and strconv.Atoi (64-bit int)

  const MinInt64: int := -0x8000_0000_0000_0000
  const MaxInt64: int := 0x7FFF_FFFF_FFFF_FFFF

  predicate IsDigit(c: char) { '0' <= c <= '9' }

  function DigitChar(d: nat): char
    requires d < 10
  {
    (('0' as int) + d) as char
  }

  /** The decimal digits of `n`, most significant first, without leading zeros. */
  function NatDigits(n: nat): (s: string)
    ensures |s| >= 1 && forall k :: 0 <= k < |s| ==> IsDigit(s[k])
  {
    if n < 10 then [DigitChar(n)] else NatDigits(n / 10) + [DigitChar(n % 10)]
  }

  /** fmt.Sprintf("%d", n). */
  function FormatInt(n: int): string
  {
    if n < 0 then "-" + NatDigits(-n) else NatDigits(n)
  }

  function DigitValue(c: char): nat
    requires IsDigit(c)
  {
    (c as int) - ('0' as int)
  }

  /** The value of a string of decimal digits. */
  function DigitsValue(s: string): nat
    requires forall k :: 0 <= k < |s| ==> IsDigit(s[k])
  {
    if s == [] then 0 else DigitsValue(s[..|s| - 1]) * 10 + DigitValue(s[|s| - 1])
  }

  lemma {:induction false} DigitsValueOfNatDigits(n: nat)
    ensures DigitsValue(NatDigits(n)) == n
  {
    if n >= 10 {
      var s := NatDigits(n);
      DigitsValueOfNatDigits(n / 10);
      assert s[..|s| - 1] == NatDigits(n / 10);
    }
  }

  predicate AllDigits(s: string) { |s| > 0 && forall k :: 0 <= k < |s| ==> IsDigit(s[k]) }

  /** The outcome of strconv.Atoi: the value it returns and whether the error is nil. On a
      syntax error the value is 0; out of range it is clamped to the 64-bit bounds. */
  datatype AtoiResult = AtoiResult(value: int, ok: bool)

  function Clamp64(v: int): int
  {
    if v < MinInt64 then MinInt64 else if v > MaxInt64 then MaxInt64 else v
  }

  /** strconv.Atoi: an optional sign and at least one decimal digit, nothing else. */
  function Atoi(s: string): (r: AtoiResult)
    ensures !r.ok ==> r.value == 0 || r.value == MinInt64 || r.value == MaxInt64
    ensures r.ok ==> MinInt64 <= r.value <= MaxInt64
  {
    if |s| > 0 && (s[0] == '+' || s[0] == '-') && AllDigits(s[1..]) then
      var v: int := if s[0] == '-' then -(DigitsValue(s[1..]) as int) else DigitsValue(s[1..]);
      AtoiResult(Clamp64(v), MinInt64 <= v <= MaxInt64)
    else if AllDigits(s) then
      var v := DigitsValue(s);
      AtoiResult(Clamp64(v), v <= MaxInt64)
    else AtoiResult(0, false)
  }

  /** Atoi reads back what "%d" writes, for every 64-bit value. */
  lemma AtoiFormatInt(n: int)
    requires MinInt64 <= n <= MaxInt64
    ensures Atoi(FormatInt(n)) == AtoiResult(n, true)
  {
    if n < 0 {
      DigitsValueOfNatDigits(-n);
      assert FormatInt(n)[1..] == NatDigits(-n);
    } else {
      DigitsValueOfNatDigits(n);
    }
  }

  /** Two 64-bit values with the same decimal text are equal. */
  lemma FormatIntInjective(a: int, b: int)
    requires MinInt64 <= a <= MaxInt64 && MinInt64 <= b <= MaxInt64
    requires FormatInt(a) == FormatInt(b)
    ensures a == b
  {
    AtoiFormatInt(a);
    AtoiFormatInt(b);
  }
}
