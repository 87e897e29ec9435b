/**
  Byte strings and the few pieces of Go's `strings` and `strconv` packages that
  the codec and the session controller rely on: `strings.TrimSpace`,
  `strconv.Atoi` and `strconv.Itoa` (which is also what `fmt`'s `%d` prints).

  A Go `string` is an immutable sequence of bytes, and `len` counts bytes. It is
  modelled as a sequence of characters each below 256, so that string literals
  of the source ("GET", "\r\n") can be written as they are.
 */
module GoText {

  type Byte = c: char | c as int < 256
  type Bytes = seq<Byte>

  datatype Option<T> = None | Some(value: T)

  datatype Result<T, E> = Ok(value: T) | Err(error: E)

  /** The range of Go's `int` on the 64-bit platforms the program is built for. */
  const MaxInt: int := 0x7FFF_FFFF_FFFF_FFFF
  const MinInt: int := -0x8000_0000_0000_0000

  // ---------------------------------------------------------------------------
  // Decimal digits
  // ---------------------------------------------------------------------------

  predicate IsDigit(c: Byte) {
    '0' <= c <= '9'
  }

  function DigitChar(d: nat): (c: Byte)
    requires d < 10
    ensures IsDigit(c) && c as int - '0' as int == d
  {
    ('0' as int + d) as char
  }

  /** The decimal numeral of `n`, most significant digit first, no leading zeros. */
  function Digits(n: nat): (r: Bytes)
    ensures |r| > 0
    ensures n >= 10 ==> r[0] != '0'
  {
    if n < 10 then [DigitChar(n)] else Digits(n / 10) + [DigitChar(n % 10)]
  }

  /** Every byte of `s` is a decimal digit. */
  predicate AllDigits(s: Bytes) {
    forall i :: 0 <= i < |s| ==> IsDigit(s[i])
  }

  lemma {:induction false} DigitsAreDigits(n: nat)
    ensures AllDigits(Digits(n))
  {
    if n >= 10 {
      DigitsAreDigits(n / 10);
      assert forall i :: 0 <= i < |Digits(n)| - 1 ==> Digits(n)[i] == Digits(n / 10)[i];
    }
  }

  /** The number a string of decimal digits denotes. */
  function DecimalValue(s: Bytes): nat
    requires AllDigits(s)
  {
    if s == [] then 0 else DecimalValue(s[..|s| - 1]) * 10 + (s[|s| - 1] as int - '0' as int)
  }

  /** Appending digits never makes a number smaller. */
  lemma {:induction false} DecimalValuePrefix(s: Bytes, j: nat)
    requires AllDigits(s) && j <= |s|
    ensures DecimalValue(s[..j]) <= DecimalValue(s)
    decreases |s|
  {
    if j < |s| {
      var t := s[..|s| - 1];
      assert t[..j] == s[..j];
      DecimalValuePrefix(t, j);
    } else {
      assert s[..j] == s;
    }
  }

  /** The length of the run of decimal digits `s` starts with. */
  function DigitRun(s: Bytes): (k: nat)
    ensures k <= |s| && AllDigits(s[..k])
    ensures k < |s| ==> !IsDigit(s[k])
  {
    if s != [] && IsDigit(s[0]) then
      var k := 1 + DigitRun(s[1..]);
      assert forall i :: 1 <= i < k ==> s[..k][i] == s[1..][..k - 1][i - 1];
      k
    else 0
  }

  /** `strconv.Itoa(n)`: an optional minus sign followed by the digits of |n|. */
  function Itoa(n: int): Bytes {
    if n < 0 then "-" + Digits(-n) else Digits(n)
  }

  // ---------------------------------------------------------------------------
  // strconv.Atoi
  // ---------------------------------------------------------------------------

  /** The largest `uint64`, beyond which `strconv.ParseUint` stops with a range error. */
  const MaxUint64: int := 0xFFFF_FFFF_FFFF_FFFF

  /** Why `strconv.Atoi` refused its input (`strconv.ErrSyntax` or `strconv.ErrRange`). */
  datatype NumReason = InvalidSyntax | OutOfRange

  datatype NumError = NumError(input: Bytes, reason: NumReason)

  /**
    `strconv.Atoi(s)`: an optional `+` or `-` sign followed by at least one
    decimal digit, and nothing else (no spaces, no underscores); the value must
    fit a 64-bit `int`. Digits are taken left to right, as `strconv.ParseUint`
    does: once the digits read so far exceed the largest `uint64` the answer is
    a range error, whatever follows them; a non-digit met before that is a
    syntax error.
   */
  function Atoi(s: Bytes): Result<int, NumError> {
    var signed := |s| > 0 && (s[0] == '+' || s[0] == '-');
    var body := if signed then s[1..] else s;
    var k := DigitRun(body);
    var v := DecimalValue(body[..k]);
    if body == [] then Err(NumError(s, InvalidSyntax))
    else if v > MaxUint64 then Err(NumError(s, OutOfRange))
    else if k < |body| then Err(NumError(s, InvalidSyntax))
    else
      var n: int := if signed && s[0] == '-' then -(v as int) else v;
      if n < MinInt || MaxInt < n then Err(NumError(s, OutOfRange)) else Ok(n)
  }

  /** A number `strconv.Atoi` accepts fits a 64-bit `int`; a refusal names the input it refused. */
  lemma AtoiRange(s: Bytes)
    ensures Atoi(s).Ok? ==> MinInt <= Atoi(s).value <= MaxInt
    ensures Atoi(s).Err? ==> Atoi(s).error.input == s
  {
  }

  lemma {:induction false} DecimalValueDigits(n: nat)
    ensures AllDigits(Digits(n)) && DecimalValue(Digits(n)) == n
  {
    DigitsAreDigits(n);
    if n >= 10 {
      var d := Digits(n);
      assert d[..|d| - 1] == Digits(n / 10);
      DecimalValueDigits(n / 10);
    }
  }

  /** `strconv.Atoi` reads back every number `strconv.Itoa` prints. */
  lemma AtoiItoa(n: int)
    requires MinInt <= n <= MaxInt
    ensures Atoi(Itoa(n)) == Ok(n)
  {
    var m: nat := if n < 0 then -n else n;
    var d := Digits(m);
    DecimalValueDigits(m);
    var s := Itoa(n);
    assert DigitRun(d) == |d| && d[..|d|] == d;
    if n < 0 {
      assert s == "-" + d;
      assert s[0] == '-' && s[1..] == d;
    } else {
      assert s == d;
      assert IsDigit(s[0]);
    }
  }

  /**
    Digits followed by anything that does not start with a digit: a range
    error when the digits alone already exceed the largest `uint64`, a syntax
    error otherwise.
   */
  lemma DigitsThenOther(d: Bytes, t: Bytes)
    requires d != [] && AllDigits(d)
    requires t != [] && !IsDigit(t[0])
    ensures Atoi(d + t) == Err(NumError(d + t, if DecimalValue(d) > MaxUint64 then OutOfRange else InvalidSyntax))
  {
    var s := d + t;
    assert IsDigit(s[0]);
    assert s[..|d|] == d;
    DigitRunAt(s, |d|);
  }

  /** A digit run ends at the first byte that is not a digit. */
  lemma {:induction false} DigitRunAt(s: Bytes, k: nat)
    requires k < |s| && AllDigits(s[..k]) && !IsDigit(s[k])
    ensures DigitRun(s) == k
  {
    if k > 0 {
      assert s[0] == s[..k][0];
      var u, w := s[1..][..k - 1], s[..k];
      assert forall i :: 0 <= i < k - 1 ==> u[i] == w[i + 1];
      DigitRunAt(s[1..], k - 1);
    }
  }

  /**
    The digits that overflow decide, whatever comes after them: a digit run
    above the largest `uint64` is a range error even when a non-digit follows.
   */
  lemma OverflowBeforeSyntax(d: Bytes, t: Bytes)
    requires AllDigits(d) && DecimalValue(d) > MaxUint64
    ensures Atoi(d + t) == Err(NumError(d + t, OutOfRange))
  {
    var s := d + t;
    assert d != [] && s[0] == d[0];
    assert s[..|d|] == d;
    var k := DigitRun(s);
    assert s[..k][..|d|] == d;
    DecimalValuePrefix(s[..k], |d|);
  }

  // ---------------------------------------------------------------------------
  // strings.TrimSpace
  // ---------------------------------------------------------------------------

  /** The ASCII white space that `strings.TrimSpace` removes. */
  predicate IsSpace(c: Byte) {
    c == ' ' || c == '\t' || c == '\n' || c == '\r' || c == '\U{0B}' || c == '\U{0C}'
  }

  function TrimLeft(s: Bytes): Bytes {
    if s != [] && IsSpace(s[0]) then TrimLeft(s[1..]) else s
  }

  function TrimRight(s: Bytes): Bytes {
    if s != [] && IsSpace(s[|s| - 1]) then TrimRight(s[..|s| - 1]) else s
  }

  /** `TrimLeft` keeps a suffix, cuts only white space, and stops at the first other byte. */
  lemma {:induction false} TrimLeftSuffix(s: Bytes) returns (i: nat)
    ensures i <= |s| && TrimLeft(s) == s[i..]
    ensures forall k :: 0 <= k < i ==> IsSpace(s[k])
    ensures i < |s| ==> !IsSpace(s[i])
  {
    if s != [] && IsSpace(s[0]) {
      var j := TrimLeftSuffix(s[1..]);
      i := j + 1;
      assert s[1..][j..] == s[i..];
      assert forall k :: 1 <= k < i ==> s[k] == s[1..][k - 1];
    } else {
      i := 0;
    }
  }

  /** `TrimRight` keeps a prefix, cuts only white space, and stops at the last other byte. */
  lemma {:induction false} TrimRightPrefix(s: Bytes) returns (j: nat)
    ensures j <= |s| && TrimRight(s) == s[..j]
    ensures forall k :: j <= k < |s| ==> IsSpace(s[k])
    ensures j > 0 ==> !IsSpace(s[j - 1])
  {
    if s != [] && IsSpace(s[|s| - 1]) {
      var t := s[..|s| - 1];
      j := TrimRightPrefix(t);
      assert t[..j] == s[..j];
      assert forall k :: j <= k < |t| ==> s[k] == t[k];
    } else {
      j := |s|;
    }
  }

  /** `strings.TrimSpace(s)`: `s` without its leading and trailing white space. */
  function TrimSpace(s: Bytes): Bytes {
    TrimRight(TrimLeft(s))
  }

  /**
    The result of `TrimSpace` is a slice of its input, everything cut off is
    white space, and the result neither starts nor ends with white space.
   */
  lemma TrimSpaceSlice(s: Bytes) returns (i: nat, j: nat)
    ensures i <= j <= |s| && TrimSpace(s) == s[i..j]
    ensures forall k :: 0 <= k < i ==> IsSpace(s[k])
    ensures forall k :: j <= k < |s| ==> IsSpace(s[k])
    ensures TrimSpace(s) != [] ==> !IsSpace(TrimSpace(s)[0]) && !IsSpace(TrimSpace(s)[|TrimSpace(s)| - 1])
  {
    i := TrimLeftSuffix(s);
    var l := s[i..];
    var m := TrimRightPrefix(l);
    j := i + m;
    assert l[..m] == s[i..j];
    assert forall k :: j <= k < |s| ==> s[k] == l[k - i];
  }

  predicate NoSpace(s: Bytes) {
    forall i :: 0 <= i < |s| ==> !IsSpace(s[i])
  }

  /**
    A line terminated by CRLF, whose text neither starts nor ends with white
    space, trims to that text.
   */
  lemma TrimLine(w: Bytes)
    requires w != [] ==> !IsSpace(w[0]) && !IsSpace(w[|w| - 1])
    ensures TrimSpace(w + "\r\n") == w
  {
    var s := w + "\r\n";
    assert TrimRight(s) == TrimRight(s[..|s| - 1]);
    assert s[..|s| - 1][..|s| - 2] == w;
    assert TrimRight(s[..|s| - 1]) == TrimRight(w);
    if w != [] {
      assert TrimLeft(s) == s;
    } else {
      assert TrimLeft(s) == TrimLeft(s[1..]);
      assert TrimLeft(s[1..]) == TrimLeft(s[2..]);
    }
  }

  lemma ItoaNoSpace(n: int)
    ensures NoSpace(Itoa(n)) && |Itoa(n)| > 0
    ensures forall i :: 0 <= i < |Itoa(n)| ==> Itoa(n)[i] != '\n'
  {
    var m: nat := if n < 0 then -n else n;
    DigitsAreDigits(m);
  }
}
