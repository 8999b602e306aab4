/** Printing integers into the buffer of a log line. */
module LogStreams {
  import opened FixedBuffers

  const MAX_NUMERIC_SIZE := 48
  const DIGITS := "9876543210123456789"

  // ---- Decimal numerals ----

  function DigitOf(d: int): (c: char)
    requires 0 <= d < 10
    ensures '0' <= c <= '9' && c as int - '0' as int == d
  {
    '0' + d as char
  }

  /** The digits of `m`, most significant first. */
  function Digits(m: nat): (s: string)
    ensures s != []
  {
    if m < 10 then [DigitOf(m)] else Digits(m / 10) + [DigitOf(m % 10)]
  }

  function Decimal(n: int): string {
    if n < 0 then "-" + Digits(-n) else Digits(n)
  }

  predicate AllDigits(s: string) {
    forall i :: 0 <= i < |s| ==> '0' <= s[i] <= '9'
  }

  /** A numeral without superfluous zeros, and no minus before a zero. */
  predicate Canonical(s: string) {
    if s != [] && s[0] == '-' then CanonicalDigits(s[1..]) && s[1] != '0'
    else CanonicalDigits(s)
  }

  predicate CanonicalDigits(s: string) {
    s != [] && AllDigits(s) && (s[0] == '0' ==> |s| == 1)
  }

  /** Reading a numeral from left to right. */
  function DigitsValue(s: string): nat
    requires AllDigits(s)
  {
    if s == [] then 0
    else 10 * DigitsValue(s[..|s| - 1]) + (s[|s| - 1] as int - '0' as int)
  }

  function Value(s: string): int
    requires Canonical(s)
  {
    if s[0] == '-' then 0 - DigitsValue(s[1..]) else DigitsValue(s)
  }

  lemma {:induction false} DigitsCanonical(m: nat)
    ensures var s := Digits(m); CanonicalDigits(s) && DigitsValue(s) == m && (s[0] == '0' <==> m == 0)
  {
    if m < 10 {
      assert Digits(m)[..0] == [];
    } else {
      DigitsCanonical(m / 10);
      assert Digits(m)[..|Digits(m)| - 1] == Digits(m / 10);
    }
  }

  /** What is printed for `n` is a canonical numeral, and reading it gives `n` back. */
  lemma DecimalRoundTrip(n: int)
    ensures Canonical(Decimal(n)) && Value(Decimal(n)) == n
  {
    if n < 0 {
      DigitsCanonical(-n);
      assert Decimal(n)[1..] == Digits(-n);
    } else {
      DigitsCanonical(n);
    }
  }

  lemma {:induction false} DigitsOfValue(s: string)
    requires CanonicalDigits(s)
    ensures Digits(DigitsValue(s)) == s
    ensures DigitsValue(s) == 0 <==> s[0] == '0'
  {
    var front, last := s[..|s| - 1], s[|s| - 1];
    ValueStep(s);
    hide Digits, DigitsValue;
    assert s == front + [last];
    if front == [] {
      DigitsOne(last);
    } else {
      assert front[0] == s[0];
      DigitsOfValue(front);
      DigitsStep(DigitsValue(front), last);
    }
  }

  lemma ValueStep(s: string)
    requires s != [] && AllDigits(s)
    ensures DigitsValue(s) == 10 * DigitsValue(s[..|s| - 1]) + (s[|s| - 1] as int - '0' as int)
    ensures |s| == 1 ==> DigitsValue(s[..|s| - 1]) == 0
  {
  }

  lemma DigitsOne(c: char)
    requires '0' <= c <= '9'
    ensures Digits(c as int - '0' as int) == [c]
  {
  }

  lemma DigitsStep(v: nat, c: char)
    requires '0' <= c <= '9' && 0 < v
    ensures Digits(10 * v + (c as int - '0' as int)) == Digits(v) + [c]
  {
    var m := 10 * v + (c as int - '0' as int);
    assert m / 10 == v && m % 10 == c as int - '0' as int;
  }

  /** And it is the only canonical numeral of `n`. */
  lemma CanonicalUnique(s: string)
    requires Canonical(s)
    ensures Decimal(Value(s)) == s
  {
    if s[0] == '-' {
      DigitsOfValue(s[1..]);
      assert s == "-" + s[1..];
    } else {
      DigitsOfValue(s);
    }
  }

  function Pow10(k: nat): nat {
    if k == 0 then 1 else 10 * Pow10(k - 1)
  }

  lemma {:induction false} DigitCountIff(m: nat, k: nat)
    requires 0 < k
    ensures |Digits(m)| <= k <==> m < Pow10(k)
  {
    if k == 1 {
      assert Pow10(1) == 10;
    } else if m < 10 {
      DigitCountIff(m, k - 1);
    } else {
      DigitCountIff(m / 10, k - 1);
    }
  }

  /** A value of some integer type of 64 bits or fewer, signed or not. */
  predicate FixedWidth(n: int) {
    -0x8000_0000_0000_0000 <= n < 0x1_0000_0000_0000_0000
  }

  /** Digits and sign take at most 20 characters, so that with the terminating NUL they stay
      well below the room that is asked for. */
  lemma FitsGuard(n: int)
    requires FixedWidth(n)
    ensures |Decimal(n)| <= 20
    ensures |Decimal(n)| + 1 < MAX_NUMERIC_SIZE
  {
    assert Pow10(5) == 100000 && Pow10(10) == 100000 * Pow10(5);
    assert Pow10(15) == 100000 * Pow10(10) && Pow10(19) == 10000 * Pow10(15) && Pow10(20) == 10 * Pow10(19);
    if n < 0 {
      DigitCountIff(-n, 19);
    } else {
      DigitCountIff(n, 20);
    }
  }

  // ---- Truncated division ----

  /** `/` and `%` round toward zero, and the remainder has the sign of the dividend. */
  function Quotient(a: int): int {
    if a < 0 then -(-a / 10) else a / 10
  }

  function Remainder(a: int): (r: int)
    ensures -9 <= r <= 9
  {
    a - 10 * Quotient(a)
  }

  function Abs(a: int): nat {
    if a < 0 then -a else a
  }

  /** The mirrored table gives the same digit for a remainder and its negative, so that the
      minimum need not be negated. */
  lemma MirroredTable(a: int)
    ensures DIGITS[9 + Remainder(a)] == DigitOf(Abs(a) % 10)
    ensures Abs(Quotient(a)) == Abs(a) / 10
  {
    var r := Remainder(a);
    assert Abs(r) == Abs(a) % 10;
    assert DIGITS[9 + r] == DigitOf(Abs(r));
  }

  function Reversed(s: string): (r: string)
    ensures |r| == |s|
    ensures forall i :: 0 <= i < |s| ==> r[i] == s[|s| - 1 - i]
  {
    if s == [] then [] else Reversed(s[1..]) + [s[0]]
  }

  lemma ReversedPush(s: string, c: char)
    ensures Reversed(s + [c]) == [c] + Reversed(s)
  {
  }

  // ---- The code ----

  /** `std::reverse` on a stretch of an array. */
  method Reverse(a: array<char>, start: nat, end: nat)
    requires start <= end <= a.Length
    modifies a
    ensures a[..] == old(a[..start] + Reversed(a[start..end]) + a[end..])
  {
    ghost var was := a[..];
    var i, j := start, end;
    while i + 1 < j
      invariant start <= i && j <= end && i + j == start + end && i <= j + 1
      invariant forall k :: 0 <= k < a.Length ==> a[k] == if i <= k < j then was[k] else Mirrored(was, start, end, k)
    {
      j := j - 1;
      a[i], a[j] := a[j], a[i];
      i := i + 1;
    }
    MirroredIsReversed(was, start, end, a[..]);
  }

  /** What a reversal of `[start, end)` puts at `k`. */
  function Mirrored(s: string, start: nat, end: nat, k: nat): char
    requires start <= end <= |s| && k < |s|
  {
    if start <= k < end then s[start + end - 1 - k] else s[k]
  }

  lemma MirroredIsReversed(s: string, start: nat, end: nat, t: string)
    requires start <= end <= |s| == |t|
    requires forall k :: 0 <= k < |s| ==> t[k] == Mirrored(s, start, end, k)
    ensures t == s[..start] + Reversed(s[start..end]) + s[end..]
  {
  }

  class LogStream {
    const buffer: FixedBuffer

    ghost predicate Valid()
      reads this, buffer
    {
      buffer.Valid()
    }

    constructor (size: nat)
      ensures Valid() && fresh(buffer) && fresh(buffer.data) && buffer.Contents() == []
    {
      buffer := new FixedBuffer(size);
    }

    /** The loop of `formatInteger`: the digits, least significant first, behind `start`. */
    method WriteDigits(num: int, start: nat) returns (cur: nat)
      requires FixedWidth(num) && start + MAX_NUMERIC_SIZE <= buffer.data.Length
      modifies buffer.data
      ensures start < cur <= start + 20 && cur - start == |Digits(Abs(num))|
      ensures buffer.data[start..cur] == Reversed(Digits(Abs(num)))
      ensures buffer.data[..start] == old(buffer.data[..start])
    {
      hide Quotient, Remainder, Reversed;
      var zero := 9;
      var n := num;
      cur := start;
      var done := false;
      ghost var data := buffer.data;
      DecimalLength(num);
      while !done
        invariant start <= cur <= start + 20 && (done ==> start < cur)
        invariant done ==> Digits(Abs(num)) == Reversed(data[start..cur])
        invariant !done ==> Digits(Abs(num)) == Digits(Abs(n)) + Reversed(data[start..cur])
        invariant data[..start] == old(data[..start])
        decreases !done, Abs(n)
      {
        MirroredTable(n);
        assert cur < start + 20;
        ghost var written := data[start..cur];
        var remainder := Remainder(n);
        buffer.data[cur] := DIGITS[zero + remainder];
        cur := cur + 1;
        assert data[start..cur] == written + [DigitOf(Abs(n) % 10)];
        ReversedPush(written, DigitOf(Abs(n) % 10));
        n := Quotient(n);
        done := n == 0;
      }
      ReversedTwice(data[start..cur]);
    }

    /** The part of `formatInteger` before the reversal: the numeral backwards, then NUL. */
    method WriteBackwards(num: int, start: nat) returns (cur: nat)
      requires FixedWidth(num) && start + MAX_NUMERIC_SIZE <= buffer.data.Length
      modifies buffer.data
      ensures start < cur <= start + 21 && buffer.data[cur] == '\0'
      ensures buffer.data[start..cur] == Reversed(Decimal(num))
      ensures buffer.data[..start] == old(buffer.data[..start])
    {
      var negative := num < 0;
      cur := WriteDigits(num, start);
      ghost var digits := buffer.data[start..cur];
      if negative {
        buffer.data[cur] := '-';
        cur := cur + 1;
        assert buffer.data[start..cur] == digits + ['-'];
        ReversedMinus(Digits(-num));
      }
      buffer.data[cur] := '\0';
    }

    /** `formatInteger`: with room for it the canonical numeral is appended, with a NUL
        behind it; without, nothing is. */
    method FormatInteger(num: int)
      requires Valid() && FixedWidth(num)
      modifies buffer, buffer.data
      ensures Valid()
      ensures buffer.Contents() ==
        old(buffer.Contents()) + if old(buffer.Avail()) >= MAX_NUMERIC_SIZE then Decimal(num) else []
      ensures old(buffer.Avail()) >= MAX_NUMERIC_SIZE ==>
        buffer.cur < buffer.size && buffer.data[buffer.cur] == '\0'
    {
      if buffer.Avail() >= MAX_NUMERIC_SIZE {
        var start := buffer.cur;
        var cur := WriteBackwards(num, start);
        hide Decimal, Reversed;
        ghost var was := buffer.data[..];
        assert was[..start] == old(buffer.Contents()) && was[start..cur] == Reversed(Decimal(num));
        Reverse(buffer.data, start, cur);
        ReversedTwice(Decimal(num));
        Assemble(was, start, cur, buffer.data[..], Decimal(num));
        buffer.Add(cur - start);
      }
    }
  }

  lemma Assemble(was: string, start: nat, cur: nat, now: string, numeral: string)
    requires start <= cur < |was| && was[cur] == '\0' && |numeral| == cur - start
    requires now == was[..start] + numeral + was[cur..]
    ensures now[..start] == was[..start] && now[start..cur] == numeral && now[cur] == '\0'
  {
  }

  lemma ReversedMinus(s: string)
    ensures Reversed("-" + s) == Reversed(s) + ['-']
  {
    assert ("-" + s)[1..] == s;
  }

  lemma DecimalLength(n: int)
    requires FixedWidth(n)
    ensures |Digits(Abs(n))| <= 20
  {
    FitsGuard(n);
  }

  lemma ReversedTwice(s: string)
    ensures Reversed(Reversed(s)) == s
  {
  }
}
