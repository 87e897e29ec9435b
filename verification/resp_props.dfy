/**
  What the RESP2 codec guarantees: the round trip from a framed command or
  value back to the value, the null replies, the error cases, the order and
  count of array items, and that a read never looks past its own reply.
 */
module RespProps {
  import opened GoText
  import opened Stream
  import opened Resp

  // ---------------------------------------------------------------------------
  // Helpers about slices and lines
  // ---------------------------------------------------------------------------

  lemma SliceSplit(s: Bytes, pos: nat, a: Bytes, b: Bytes)
    requires pos + |a| + |b| <= |s| && s[pos..pos + |a| + |b|] == a + b
    ensures s[pos..pos + |a|] == a && s[pos + |a|..pos + |a| + |b|] == b
  {
    assert s[pos..pos + |a|] == (a + b)[..|a|];
    assert s[pos + |a|..pos + |a| + |b|] == (a + b)[|a|..];
  }

  /** A line whose text has no line feed ends at the LF of its CRLF. */
  lemma NewlineAfter(s: Bytes, p: nat, w: Bytes)
    requires forall i :: 0 <= i < |w| ==> w[i] != '\n'
    requires p + |w| + 2 <= |s| && s[p..p + |w| + 2] == w + "\r\n"
    ensures NewlineFrom(s, p) == Some(p + |w| + 1)
  {
    assert forall k :: p <= k < p + |w| ==> s[k] == w[k - p];
    assert s[p + |w|] == '\r' && s[p + |w| + 1] == '\n';
    NewlineAt(s, p, p + |w| + 1);
  }

  /** `ReadResp` dispatches on the prefix byte. */
  lemma ParsePrefix(s: Bytes, pos: nat)
    requires pos < |s|
    ensures s[pos] == '+' || s[pos] == '-' ==> Parse(s, pos) == SimpleLine(s, pos + 1)
    ensures s[pos] == '$' ==> Parse(s, pos) == BulkString(s, pos + 1)
    ensures s[pos] == '*' ==> Parse(s, pos) == ArrayReply(s, pos + 1)
  {
  }

  /** What a bulk string is once its length line has been read. */
  lemma BulkStringAfter(s: Bytes, p: nat, n: int, q: nat)
    requires p <= |s| && LengthLine(s, p) == Parsed(Ok(n), q)
    ensures n == -1 ==> BulkString(s, p) == Parsed(Ok(Str(Nil)), q)
    ensures n < -1 ==> BulkString(s, p) == Parsed(Err(NegativeLength(n)), q)
    ensures n >= 0 ==> BulkString(s, p) == BulkBody(s, q, n)
  {
  }

  /** A length or count line that fails fails the bulk string or array with it. */
  lemma HeaderFails(s: Bytes, p: nat)
    requires p <= |s| && LengthLine(s, p).result.Err?
    ensures BulkString(s, p) == Parsed(Err(LengthLine(s, p).result.error), LengthLine(s, p).next)
    ensures ArrayReply(s, p) == Parsed(Err(LengthLine(s, p).result.error), LengthLine(s, p).next)
  {
  }

  /** What a simple string or error is once its line has been found. */
  lemma SimpleLineAt(s: Bytes, p: nat, k: nat)
    requires p <= |s| && NewlineFrom(s, p) == Some(k)
    ensures SimpleLine(s, p) == Parsed(Ok(Str(TrimSpace(s[p..k + 1]))), k + 1)
  {
  }

  /** What an array is once its count line has been read. */
  lemma ArrayReplyAfter(s: Bytes, p: nat, n: int, q: nat)
    requires p <= |s| && LengthLine(s, p) == Parsed(Ok(n), q)
    ensures n == -1 ==> ArrayReply(s, p) == Parsed(Ok(Str(Nil)), q)
    ensures n < -1 || n == 0 ==> ArrayReply(s, p) == Parsed(Ok(Arr([])), q)
    ensures n > 0 && ParseItems(s, q, n).result.Ok? ==>
      ArrayReply(s, p) == Parsed(Ok(Arr(ParseItems(s, q, n).result.value)), ParseItems(s, q, n).next)
    ensures n > 0 && ParseItems(s, q, n).result.Err? ==>
      ArrayReply(s, p) == Parsed(Err(ParseItems(s, q, n).result.error), ParseItems(s, q, n).next)
  {
  }

  /** The text `strconv.Itoa` printed, ended by CRLF, is read back as that number. */
  lemma NumberOf(n: int, next: nat)
    requires MinInt <= n <= MaxInt
    ensures Number(Itoa(n) + "\r\n", next) == Parsed(Ok(n), next)
  {
    ItoaNoSpace(n);
    TrimLine(Itoa(n));
    AtoiItoa(n);
  }

  lemma LengthLineAt(s: Bytes, p: nat, k: nat)
    requires p <= |s| && NewlineFrom(s, p) == Some(k)
    ensures LengthLine(s, p) == Number(s[p..k + 1], k + 1)
  {
  }

  /** A length line that `strconv.Itoa` printed is read back as that number. */
  lemma LengthLineOf(s: Bytes, p: nat, n: int)
    requires MinInt <= n <= MaxInt
    requires p + |Itoa(n)| + 2 <= |s| && s[p..p + |Itoa(n)| + 2] == Itoa(n) + "\r\n"
    ensures LengthLine(s, p) == Parsed(Ok(n), p + |Itoa(n)| + 2)
  {
    var w := Itoa(n);
    ItoaNoSpace(n);
    NewlineAfter(s, p, w);
    var k := p + |w| + 1;
    LengthLineAt(s, p, k);
    assert s[p..k + 1] == w + "\r\n";
    NumberOf(n, k + 1);
  }

  /** A header: a prefix byte, then a length or count line that `strconv.Itoa` printed. */
  lemma HeaderLine(s: Bytes, pos: nat, c: Byte, n: int)
    requires MinInt <= n <= MaxInt
    requires pos + |Itoa(n)| + 3 <= |s| && s[pos..pos + |Itoa(n)| + 3] == [c] + Itoa(n) + "\r\n"
    ensures s[pos] == c && LengthLine(s, pos + 1) == Parsed(Ok(n), pos + |Itoa(n)| + 3)
  {
    SliceSplit(s, pos, [c], Itoa(n) + "\r\n");
    assert s[pos] == s[pos..pos + 1][0];
    LengthLineOf(s, pos + 1, n);
  }

  /** A bulk body followed by CRLF is read as exactly those bytes. */
  lemma BulkBodyOf(s: Bytes, d: nat, x: Bytes)
    requires d + |x| + 2 <= |s| && s[d..d + |x| + 2] == x + "\r\n"
    ensures BulkBody(s, d, |x|) == Parsed(Ok(Str(x)), d + |x| + 2)
  {
    SliceSplit(s, d, x, "\r\n");
    NewlineAfter(s, d + |x|, []);
  }

  // ---------------------------------------------------------------------------
  // Round trip
  // ---------------------------------------------------------------------------

  /** Decoding a framed value gives the value back and stops right after its bytes. */
  lemma {:induction false} ParseEncoded(v: Value, s: Bytes, pos: nat)
    requires Encodable(v)
    requires pos + |EncodeValue(v)| <= |s| && s[pos..pos + |EncodeValue(v)|] == EncodeValue(v)
    ensures Parse(s, pos) == Parsed(Ok(v), pos + |EncodeValue(v)|)
    decreases v, 2
  {
    match v
    case Str(x) => BulkEncoded(x, s, pos);
    case Arr(xs) => ArrayEncoded(xs, s, pos);
  }

  lemma BulkEncoded(x: Bytes, s: Bytes, pos: nat)
    requires |x| <= MaxInt
    requires pos + |Bulk(x)| <= |s| && s[pos..pos + |Bulk(x)|] == Bulk(x)
    ensures Parse(s, pos) == Parsed(Ok(Str(x)), pos + |Bulk(x)|)
  {
    var head, body := "$" + Itoa(|x|) + "\r\n", x + "\r\n";
    assert Bulk(x) == head + body;
    SliceSplit(s, pos, head, body);
    HeaderLine(s, pos, '$', |x|);
    ParsePrefix(s, pos);
    var q := pos + |head|;
    BulkStringAfter(s, pos + 1, |x|, q);
    BulkBodyOf(s, q, x);
    assert BulkString(s, pos + 1) == Parsed(Ok(Str(x)), q + |body|);
  }

  /**
    The length a bulk string announces is its number of bytes: the header
    reads back as `|x|`, and exactly `x` and CRLF follow it.
   */
  lemma BulkLengthIsByteCount(x: Bytes)
    requires |x| <= MaxInt
    ensures var h := |Itoa(|x|)| + 3;
      && Bulk(x)[0] == '$' && LengthLine(Bulk(x), 1) == Parsed(Ok(|x|), h)
      && Bulk(x)[h..] == x + "\r\n"
  {
    var head := "$" + Itoa(|x|) + "\r\n";
    assert Bulk(x) == head + (x + "\r\n");
    HeaderLine(Bulk(x), 0, '$', |x|);
  }

  lemma {:induction false} ArrayEncoded(xs: seq<Value>, s: Bytes, pos: nat)
    requires |xs| <= MaxInt && forall i :: 0 <= i < |xs| ==> Encodable(xs[i])
    requires pos + |EncodeValue(Arr(xs))| <= |s| && s[pos..pos + |EncodeValue(Arr(xs))|] == EncodeValue(Arr(xs))
    ensures Parse(s, pos) == Parsed(Ok(Arr(xs)), pos + |EncodeValue(Arr(xs))|)
    decreases xs, 1
  {
    var head, body := "*" + Itoa(|xs|) + "\r\n", EncodeAll(xs);
    var q, r := pos + |head|, pos + |head| + |body|;
    assert EncodeValue(Arr(xs)) == head + body && q <= r <= |s|
      && s[pos..q] == head && s[q..r] == body by {
      SliceSplit(s, pos, head, body);
    }
    assert s[pos] == '*' && LengthLine(s, pos + 1) == Parsed(Ok(|xs|), q) by {
      HeaderLine(s, pos, '*', |xs|);
    }
    ParsePrefix(s, pos);
    if xs != [] {
      assert ParseItems(s, q, |xs|) == Parsed(Ok(xs), r) by {
        ParseAllEncoded(xs, s, q);
      }
      ArrayOfItems(s, pos + 1, xs, q, r);
    } else {
      ArrayReplyAfter(s, pos + 1, 0, q);
    }
  }

  lemma ArrayOfItems(s: Bytes, p: nat, xs: seq<Value>, q: nat, r: nat)
    requires p <= |s| && xs != [] && LengthLine(s, p) == Parsed(Ok(|xs|), q)
    requires q <= |s| && ParseItems(s, q, |xs|) == Parsed(Ok(xs), r)
    ensures ArrayReply(s, p) == Parsed(Ok(Arr(xs)), r)
  {
  }

  lemma {:induction false} ParseAllEncoded(xs: seq<Value>, s: Bytes, pos: nat)
    requires forall i :: 0 <= i < |xs| ==> Encodable(xs[i])
    requires pos + |EncodeAll(xs)| <= |s| && s[pos..pos + |EncodeAll(xs)|] == EncodeAll(xs)
    ensures ParseItems(s, pos, |xs|) == Parsed(Ok(xs), pos + |EncodeAll(xs)|)
    decreases xs, 0
  {
    if xs != [] {
      var e0, es := EncodeValue(xs[0]), EncodeAll(xs[1..]);
      var q, r := pos + |e0|, pos + |e0| + |es|;
      assert EncodeAll(xs) == e0 + es && q <= r <= |s|
        && s[pos..q] == e0 && s[q..r] == es by {
        SliceSplit(s, pos, e0, es);
      }
      assert Parse(s, pos) == Parsed(Ok(xs[0]), q) by {
        assert Encodable(xs[0]);
        ParseEncoded(xs[0], s, pos);
      }
      assert ParseItems(s, q, |xs[1..]|) == Parsed(Ok(xs[1..]), r) by {
        ParseAllEncoded(xs[1..], s, q);
      }
      ItemsCons(s, pos, xs[0], xs[1..], q, r);
      assert [xs[0]] + xs[1..] == xs;
    }
  }

  /** An item followed by `n` more items is `n + 1` items. */
  lemma ItemsCons(s: Bytes, p: nat, x: Value, xs: seq<Value>, q: nat, r: nat)
    requires p <= |s| && Parse(s, p) == Parsed(Ok(x), q)
    requires q <= |s| && ParseItems(s, q, |xs|) == Parsed(Ok(xs), r)
    ensures ParseItems(s, p, |xs| + 1) == Parsed(Ok([x] + xs), r)
  {
  }

  lemma {:induction false} BulkArgsAreStrs(args: seq<Bytes>)
    ensures BulkArgs(args) == EncodeAll(Strs(args))
  {
    if args != [] {
      assert Strs(args)[1..] == Strs(args[1..]);
      BulkArgsAreStrs(args[1..]);
    }
  }

  /** The bytes of a command are the framing of the array of its name and arguments. */
  lemma CommandIsArrayOfBulks(cmd: Command)
    ensures EncodeCommand(cmd) == EncodeValue(CommandValue(cmd))
  {
    var xs := [Str(cmd.name)] + Strs(cmd.args);
    assert xs[0] == Str(cmd.name) && xs[1..] == Strs(cmd.args);
    BulkArgsAreStrs(cmd.args);
    assert EncodeAll(xs) == Bulk(cmd.name) + BulkArgs(cmd.args);
    assert |xs| == |cmd.args| + 1;
  }

  /**
    Round trip: whatever follows it in the stream, a framed command is decoded
    as the array of its name and arguments, for any bytes in them, and the read
    stops exactly at its end.
   */
  lemma CommandRoundTrip(cmd: Command, rest: Bytes)
    requires |cmd.name| <= MaxInt && |cmd.args| < MaxInt
    requires forall i :: 0 <= i < |cmd.args| ==> |cmd.args[i]| <= MaxInt
    ensures Parse(EncodeCommand(cmd) + rest, 0)
      == Parsed(Ok(Arr([Str(cmd.name)] + Strs(cmd.args))), |EncodeCommand(cmd)|)
  {
    var v := CommandValue(cmd);
    CommandIsArrayOfBulks(cmd);
    var s := EncodeCommand(cmd) + rest;
    assert s[0..|EncodeValue(v)|] == EncodeValue(v);
    assert Encodable(v) by {
      var xs := v.items;
      forall i | 0 <= i < |xs| ensures Encodable(xs[i]) {
        if i > 0 { assert xs[i] == Str(cmd.args[i - 1]); }
      }
    }
    ParseEncoded(v, s, 0);
  }

  // ---------------------------------------------------------------------------
  // Null replies and lengths
  // ---------------------------------------------------------------------------

  /** `$-1` is the text "(nil)", not an empty string and not an array. */
  lemma NullBulk(s: Bytes, pos: nat)
    requires pos + 5 <= |s| && s[pos..pos + 5] == "$-1\r\n"
    ensures Parse(s, pos) == Parsed(Ok(Str(Nil)), pos + 5)
  {
    assert Itoa(-1) == "-1";
    HeaderLine(s, pos, '$', -1);
    ParsePrefix(s, pos);
    BulkStringAfter(s, pos + 1, -1, pos + 5);
  }

  /** `*-1` is the text "(nil)" too: a null array never decodes to an empty array. */
  lemma NullArray(s: Bytes, pos: nat)
    requires pos + 5 <= |s| && s[pos..pos + 5] == "*-1\r\n"
    ensures Parse(s, pos) == Parsed(Ok(Str(Nil)), pos + 5)
    ensures Parse(s, pos).result != Ok(Arr([]))
  {
    assert Itoa(-1) == "-1";
    HeaderLine(s, pos, '*', -1);
    ParsePrefix(s, pos);
    ArrayReplyAfter(s, pos + 1, -1, pos + 5);
  }

  /** A bulk length below -1 is the length Go's `make` refuses. */
  lemma NegativeBulkLength(s: Bytes, pos: nat, n: int)
    requires MinInt <= n < -1
    requires pos + |Itoa(n)| + 3 <= |s| && s[pos..pos + |Itoa(n)| + 3] == "$" + Itoa(n) + "\r\n"
    ensures Parse(s, pos) == Parsed(Err(NegativeLength(n)), pos + |Itoa(n)| + 3)
  {
    HeaderLine(s, pos, '$', n);
    ParsePrefix(s, pos);
    BulkStringAfter(s, pos + 1, n, pos + |Itoa(n)| + 3);
  }

  /** An array count below -1 runs Go's counted loop zero times: an empty array. */
  lemma NegativeArrayCount(s: Bytes, pos: nat, n: int)
    requires MinInt <= n < -1
    requires pos + |Itoa(n)| + 3 <= |s| && s[pos..pos + |Itoa(n)| + 3] == "*" + Itoa(n) + "\r\n"
    ensures Parse(s, pos) == Parsed(Ok(Arr([])), pos + |Itoa(n)| + 3)
  {
    HeaderLine(s, pos, '*', n);
    ParsePrefix(s, pos);
    ArrayReplyAfter(s, pos + 1, n, pos + |Itoa(n)| + 3);
  }

  /**
    A length or count line that `strconv.Atoi` refuses fails the whole read
    with that error; nothing of the reply is kept, and the stream is left just
    after the bad line.
   */
  lemma BadLength(s: Bytes, pos: nat, k: nat)
    requires pos < |s| && (s[pos] == '$' || s[pos] == '*')
    requires NewlineFrom(s, pos + 1) == Some(k)
    requires Atoi(TrimSpace(s[pos + 1..k + 1])).Err?
    ensures Parse(s, pos) == Parsed(Err(BadNumber(Atoi(TrimSpace(s[pos + 1..k + 1])).error)), k + 1)
  {
    ParsePrefix(s, pos);
    LengthLineAt(s, pos + 1, k);
    HeaderFails(s, pos + 1);
  }

  /** The reply `$abc` CRLF is a decode error, not a crash and not an empty value. */
  lemma MalformedLength(rest: Bytes)
    ensures Parse("$abc\r\n" + rest, 0) == Parsed(Err(BadNumber(NumError("abc", InvalidSyntax))), 6)
  {
    var s := "$abc\r\n" + rest;
    SliceSplit(s, 1, "abc", "\r\n");
    NewlineAfter(s, 1, "abc");
    TrimLine("abc");
    assert s[1..6] == "abc\r\n";
    assert !IsDigit('a');
  }

  /**
    A length whose digits overflow is reported as out of range even when a
    non-digit follows them (as in `$99999999999999999999x`): `strconv.ParseUint`
    stops at the overflowing digit before it reaches the rest of the line.
   */
  lemma OverflowingLength(n: nat, t: Bytes, rest: Bytes)
    requires n > MaxUint64
    requires t != [] && !IsDigit(t[0]) && !IsSpace(t[|t| - 1])
    requires forall i :: 0 <= i < |t| ==> t[i] != '\n'
    ensures var w := Digits(n) + t;
      Parse("$" + w + "\r\n" + rest, 0) == Parsed(Err(BadNumber(NumError(w, OutOfRange))), |w| + 3)
  {
    var d := Digits(n);
    var w := d + t;
    var s := "$" + w + "\r\n" + rest;
    DecimalValueDigits(n);
    assert forall i :: 0 <= i < |w| ==> w[i] != '\n' by {
      assert forall i :: 0 <= i < |d| ==> w[i] == d[i];
      assert forall i :: |d| <= i < |w| ==> w[i] == t[i - |d|];
    }
    assert s[1..|w| + 3] == w + "\r\n";
    NewlineAfter(s, 1, w);
    TrimLine(w);
    OverflowBeforeSyntax(d, t);
    BadLength(s, 0, |w| + 2);
  }

  // ---------------------------------------------------------------------------
  // Arrays
  // ---------------------------------------------------------------------------

  /**
    The `n` items of an array are the replies decoded one after the other:
    item `i` is what `ReadResp` decodes at the position where item `i - 1` ended.
   */
  lemma {:induction false} ItemsInOrder(s: Bytes, p: nat, n: nat) returns (ps: seq<nat>)
    requires p <= |s|
    requires ParseItems(s, p, n).result.Ok?
    ensures |ps| == n + 1 && ps[0] == p && ps[n] == ParseItems(s, p, n).next
    ensures forall i :: 0 <= i < n ==>
      ps[i] <= |s| && Parse(s, ps[i]) == Parsed(Ok(ParseItems(s, p, n).result.value[i]), ps[i + 1])
    decreases n
  {
    if n == 0 {
      ps := [p];
    } else {
      var h := Parse(s, p);
      var t := ItemsInOrder(s, h.next, n - 1);
      ps := [p] + t;
      var xs := ParseItems(s, p, n).result.value;
      assert xs[1..] == ParseItems(s, h.next, n - 1).result.value;
      forall i | 0 <= i < n
        ensures ps[i] <= |s| && Parse(s, ps[i]) == Parsed(Ok(xs[i]), ps[i + 1])
      {
        if i > 0 { assert ps[i] == t[i - 1] && xs[i] == xs[1..][i - 1]; }
      }
    }
  }

  /**
    If items `0 .. i-1` decode one after the other and item `i` fails, the
    whole array fails with that item's error, where that item stopped.
   */
  lemma {:induction false} ItemErrorAborts(s: Bytes, p: nat, n: nat, ps: seq<nat>, i: nat)
    requires p <= |s| && i < n && |ps| == i + 1 && ps[0] == p
    requires forall j :: 0 <= j <= i ==> ps[j] <= |s|
    requires forall j {:trigger Parse(s, ps[j])} :: 0 <= j < i ==> Parse(s, ps[j]).result.Ok? && Parse(s, ps[j]).next == ps[j + 1]
    requires Parse(s, ps[i]).result.Err?
    ensures ParseItems(s, p, n) == Parsed(Err(Parse(s, ps[i]).result.error), Parse(s, ps[i]).next)
    decreases i
  {
    if i > 0 {
      var h := Parse(s, p);
      assert h.result.Ok? && h.next == ps[1];
      forall j | 0 <= j < i - 1
        ensures Parse(s, ps[1..][j]).result.Ok? && Parse(s, ps[1..][j]).next == ps[1..][j + 1]
      {
        assert ps[1..][j] == ps[j + 1];
      }
      ItemErrorAborts(s, h.next, n - 1, ps[1..], i - 1);
    }
  }

  /** An array with count `n` decodes to exactly `n` items, each its own reply, in order. */
  lemma ArrayInOrder(s: Bytes, pos: nat, n: int, q: nat) returns (ps: seq<nat>)
    requires pos < |s| && s[pos] == '*' && LengthLine(s, pos + 1) == Parsed(Ok(n), q) && n >= 0
    requires Parse(s, pos).result.Ok?
    ensures Parse(s, pos).result.value.Arr? && |Parse(s, pos).result.value.items| == n
    ensures |ps| == n + 1 && ps[0] == q && ps[n] == Parse(s, pos).next
    ensures forall i :: 0 <= i < n ==>
      ps[i] <= |s| && Parse(s, ps[i]) == Parsed(Ok(Parse(s, pos).result.value.items[i]), ps[i + 1])
  {
    ParsePrefix(s, pos);
    ArrayReplyAfter(s, pos + 1, n, q);
    if n == 0 {
      ps := [q];
    } else {
      ps := ItemsInOrder(s, q, n);
    }
  }

  /** One failing item fails the whole array read. */
  lemma ArrayItemErrorAborts(s: Bytes, pos: nat, n: int, q: nat, ps: seq<nat>, i: nat)
    requires pos < |s| && s[pos] == '*' && LengthLine(s, pos + 1) == Parsed(Ok(n), q) && i < n
    requires |ps| == i + 1 && ps[0] == q
    requires forall j :: 0 <= j <= i ==> ps[j] <= |s|
    requires forall j {:trigger Parse(s, ps[j])} :: 0 <= j < i ==> Parse(s, ps[j]).result.Ok? && Parse(s, ps[j]).next == ps[j + 1]
    requires Parse(s, ps[i]).result.Err?
    ensures Parse(s, pos) == Parsed(Err(Parse(s, ps[i]).result.error), Parse(s, ps[i]).next)
  {
    ParsePrefix(s, pos);
    ItemErrorAborts(s, q, n, ps, i);
    ArrayReplyAfter(s, pos + 1, n, q);
  }

  // ---------------------------------------------------------------------------
  // Simple strings, errors and unknown prefixes
  // ---------------------------------------------------------------------------

  /** `+` and `-` lines give back their text, without the CRLF and surrounding spaces. */
  lemma StatusLine(s: Bytes, pos: nat, c: Byte, w: Bytes)
    requires c == '+' || c == '-'
    requires forall i :: 0 <= i < |w| ==> w[i] != '\n'
    requires w != [] ==> !IsSpace(w[0]) && !IsSpace(w[|w| - 1])
    requires pos + |w| + 3 <= |s| && s[pos..pos + |w| + 3] == [c] + w + "\r\n"
    ensures Parse(s, pos) == Parsed(Ok(Str(w)), pos + |w| + 3)
  {
    var line := w + "\r\n";
    SliceSplit(s, pos, [c], line);
    assert s[pos] == s[pos..pos + 1][0];
    NewlineAfter(s, pos + 1, w);
    ParsePrefix(s, pos);
    SimpleLineAt(s, pos + 1, pos + |w| + 2);
    TrimLine(w);
  }

  lemma {:induction false} NewlineSame(s: Bytes, t: Bytes, p: nat)
    requires p <= |s| == |t| && forall k :: p <= k < |s| ==> s[k] == t[k]
    ensures NewlineFrom(s, p) == NewlineFrom(t, p)
    decreases |s| - p
  {
    if p < |s| {
      NewlineSame(s, t, p + 1);
    }
  }

  /** A simple string and an error with the same text decode to the same value. */
  lemma StatusAndErrorAlike(s: Bytes, t: Bytes, pos: nat)
    requires pos < |s| && |s| == |t| && s[pos] == '+' && t[pos] == '-'
    requires s[pos + 1..] == t[pos + 1..]
    ensures Parse(s, pos) == Parse(t, pos)
  {
    forall k | pos < k < |s|
      ensures s[k] == t[k]
    {
      assert s[k] == s[pos + 1..][k - pos - 1];
    }
    NewlineSame(s, t, pos + 1);
    ParsePrefix(s, pos);
    ParsePrefix(t, pos);
    match NewlineFrom(s, pos + 1)
    case Some(k) =>
      assert s[pos + 1..k + 1] == t[pos + 1..k + 1];
    case None =>
  }

  /**
    A byte that starts no known reply type gives the empty string, with no
    error, and only that byte is consumed.
   */
  lemma UnknownPrefix(s: Bytes, pos: nat)
    requires pos < |s| && s[pos] != '+' && s[pos] != '-' && s[pos] != '$' && s[pos] != '*'
    ensures Parse(s, pos) == Parsed(Ok(Str([])), pos + 1)
  {
  }

  /** So an integer reply is read as "" and leaves its digits and CRLF in the stream. */
  lemma IntegerReplyIgnored(digits: Bytes, rest: Bytes)
    ensures Parse(":" + digits + "\r\n" + rest, 0) == Parsed(Ok(Str([])), 1)
  {
    UnknownPrefix(":" + digits + "\r\n" + rest, 0);
  }

  /** An empty (closed) stream is `io.EOF`. */
  lemma EmptyStream(s: Bytes)
    ensures Parse(s, |s|) == Parsed(Err(Io(Eof)), |s|)
  {
  }

  // ---------------------------------------------------------------------------
  // A read never looks past its own reply
  // ---------------------------------------------------------------------------

  /** A line that ends in `s` ends at the same place, with the same text, in `s + t`. */
  lemma LineExtend(s: Bytes, t: Bytes, p: nat)
    requires p <= |s| && NewlineFrom(s, p).Some?
    ensures NewlineFrom(s + t, p) == NewlineFrom(s, p)
    ensures (s + t)[p..NewlineFrom(s, p).value + 1] == s[p..NewlineFrom(s, p).value + 1]
  {
    var k := NewlineFrom(s, p).value;
    NewlineFromIsFirst(s, p);
    assert (s + t)[k] == '\n';
    assert forall j :: p <= j < k ==> (s + t)[j] == s[j];
    NewlineAt(s + t, p, k);
  }

  lemma SimpleLineExtend(s: Bytes, t: Bytes, p: nat)
    requires p <= |s| && SimpleLine(s, p).result.Ok?
    ensures SimpleLine(s + t, p) == SimpleLine(s, p)
  {
    LineExtend(s, t, p);
  }

  lemma LengthLineExtend(s: Bytes, t: Bytes, p: nat)
    requires p <= |s| && LengthLine(s, p).result.Ok?
    ensures LengthLine(s + t, p) == LengthLine(s, p)
  {
    LineExtend(s, t, p);
    var k := NewlineFrom(s, p).value;
    LengthLineAt(s, p, k);
    LengthLineAt(s + t, p, k);
  }

  lemma BulkStringExtend(s: Bytes, t: Bytes, p: nat)
    requires p <= |s| && BulkString(s, p).result.Ok?
    ensures BulkString(s + t, p) == BulkString(s, p)
  {
    LengthLineExtend(s, t, p);
    var h := LengthLine(s, p);
    BulkStringAfter(s, p, h.result.value, h.next);
    BulkStringAfter(s + t, p, h.result.value, h.next);
    if h.result.value >= 0 {
      var d, n := h.next, h.result.value;
      LineExtend(s, t, d + n);
      assert (s + t)[d..d + n] == s[d..d + n];
    }
  }

  /**
    Bytes that arrive after a reply do not change how that reply decodes: a
    successful read depends only on the bytes up to where it stopped.
   */
  lemma {:induction false} ParseExtend(s: Bytes, t: Bytes, pos: nat)
    requires pos <= |s| && Parse(s, pos).result.Ok?
    ensures Parse(s + t, pos) == Parse(s, pos)
    decreases |s| - pos, 1
  {
    ParsePrefix(s, pos);
    ParsePrefix(s + t, pos);
    if s[pos] == '+' || s[pos] == '-' {
      SimpleLineExtend(s, t, pos + 1);
    } else if s[pos] == '$' {
      BulkStringExtend(s, t, pos + 1);
    } else if s[pos] == '*' {
      ArrayReplyExtend(s, t, pos + 1);
    }
  }

  lemma {:induction false} ArrayReplyExtend(s: Bytes, t: Bytes, p: nat)
    requires p <= |s| && ArrayReply(s, p).result.Ok?
    ensures ArrayReply(s + t, p) == ArrayReply(s, p)
    decreases |s| - p, 0
  {
    LengthLineExtend(s, t, p);
    var h := LengthLine(s, p);
    var n, q := h.result.value, h.next;
    ArrayReplyAfter(s, p, n, q);
    ArrayReplyAfter(s + t, p, n, q);
    if n > 0 {
      ParseItemsExtend(s, t, q, n);
    }
  }

  lemma {:induction false} ParseItemsExtend(s: Bytes, t: Bytes, p: nat, n: nat)
    requires p <= |s| && ParseItems(s, p, n).result.Ok?
    ensures ParseItems(s + t, p, n) == ParseItems(s, p, n)
    decreases |s| - p, 2, n
  {
    if n > 0 {
      ParseExtend(s, t, p);
      ParseItemsExtend(s, t, Parse(s, p).next, n - 1);
    }
  }
}
