/**
  The client side of the codec, as internal/redis/client.go writes it:
  `RedisCmd.ToBytes` fills a buffer argument by argument, and `ReadResp` reads
  one reply from a shared buffered reader, growing an array item by item and
  recursing for nested replies. main.go holds an identical copy of both.

  Each method is proved to compute what the specification functions of module
  Resp say (`EncodeCommand`, `Parse`), whose properties are proved in module
  RespProps.
 */
module RedisClient {
  import opened GoText
  import opened Stream
  import opened Resp
  import opened RespProps

  /** Framing one more argument appends one bulk string. */
  lemma {:induction false} BulkArgsSnoc(args: seq<Bytes>, x: Bytes)
    ensures BulkArgs(args + [x]) == BulkArgs(args) + Bulk(x)
  {
    if args == [] {
      assert [x][1..] == [];
    } else {
      assert (args + [x])[1..] == args[1..] + [x];
      BulkArgsSnoc(args[1..], x);
    }
  }

  lemma AppendArg(head: Bytes, args: seq<Bytes>, i: nat)
    requires i < |args|
    ensures head + BulkArgs(args[..i]) + Bulk(args[i]) == head + BulkArgs(args[..i + 1])
  {
    BulkArgsSnoc(args[..i], args[i]);
    assert args[..i + 1] == args[..i] + [args[i]];
  }

  /** `RedisCmd.ToBytes`: the array header, the name, then each argument in order. */
  method ToBytes(cmd: Command) returns (buf: Bytes)
    ensures buf == EncodeCommand(cmd)
  {
    buf := "*" + Itoa(|cmd.args| + 1) + "\r\n";
    buf := buf + Bulk(cmd.name);
    ghost var head := buf;
    var i := 0;
    while i < |cmd.args|
      invariant 0 <= i <= |cmd.args|
      invariant buf == head + BulkArgs(cmd.args[..i])
    {
      var arg := cmd.args[i];
      AppendArg(head, cmd.args, i);
      buf := buf + Bulk(arg);
      i := i + 1;
    }
    assert cmd.args[..i] == cmd.args;
  }

  /**
    What a Go function returning `(any, error)` hands back for a read: the value
    and no error, or the empty string `""` and the error.
   */
  predicate Returns<T(==)>(p: Parsed<T>, v: T, empty: T, err: Option<RespError>) {
    match p.result
    case Ok(x) => err.None? && v == x
    case Err(e) => err == Some(e) && v == empty
  }

  /** Items already read, in front of the outcome of reading the rest. */
  function Prepend(items: seq<Value>, rest: Parsed<seq<Value>>): Parsed<seq<Value>> {
    match rest.result
    case Ok(xs) => Parsed(Ok(items + xs), rest.next)
    case Err(e) => rest
  }

  lemma PrependNothing(rest: Parsed<seq<Value>>)
    ensures Prepend([], rest) == rest
  {
    if rest.result.Ok? {
      assert [] + rest.result.value == rest.result.value;
    }
  }

  /** Reading `m > 0` items is reading one and then the other `m - 1`. */
  lemma ItemsStep(s: Bytes, p: nat, m: nat, items: seq<Value>)
    requires p <= |s| && m > 0
    ensures Parse(s, p).result.Err? ==>
      Prepend(items, ParseItems(s, p, m)) == Parsed(Err(Parse(s, p).result.error), Parse(s, p).next)
    ensures Parse(s, p).result.Ok? ==>
      Prepend(items, ParseItems(s, p, m))
        == Prepend(items + [Parse(s, p).result.value], ParseItems(s, Parse(s, p).next, m - 1))
  {
    var h := Parse(s, p);
    if h.result.Ok? {
      var t := ParseItems(s, h.next, m - 1);
      if t.result.Ok? {
        assert items + ([h.result.value] + t.result.value) == items + [h.result.value] + t.result.value;
      }
    }
  }

  /**
    A length or count line: `ReadString('\n')`, then `strconv.Atoi` of the
    trimmed text.
   */
  method ReadLength(r: Reader) returns (n: int, err: Option<RespError>)
    requires r.Valid()
    modifies r
    ensures r.Valid() && r.pos == LengthLine(r.data, old(r.pos)).next
    ensures Returns(LengthLine(r.data, old(r.pos)), n, 0, err)
  {
    ghost var p := r.pos;
    var line, e := r.ReadLine();
    if e.Some? {
      return 0, Some(Io(e.value));
    }
    LengthLineAt(r.data, p, r.pos - 1);
    var a := Atoi(TrimSpace(line));
    match a {
      case Err(ne) => n, err := 0, Some(BadNumber(ne));
      case Ok(m) => n, err := m, None;
    }
  }

  /**
    `ReadResp`: read one reply, dispatching on its prefix byte. It reads
    exactly what `Parse` describes and returns its value or its error.
   */
  method ReadResp(r: Reader) returns (v: Value, err: Option<RespError>)
    requires r.Valid()
    modifies r
    ensures r.Valid() && r.pos == Parse(r.data, old(r.pos)).next
    ensures Returns(Parse(r.data, old(r.pos)), v, Str([]), err)
    decreases |r.data| - r.pos, 0
  {
    ghost var s, pos := r.data, r.pos;
    var prefix, e := r.ReadByte();
    if e.Some? {
      return Str([]), Some(Io(e.value));
    }
    ParsePrefix(s, pos);
    if prefix == '+' || prefix == '-' {
      v, err := ReadSimple(r);
    } else if prefix == '$' {
      v, err := ReadBulk(r);
    } else if prefix == '*' {
      v, err := ReadArray(r);
    } else {
      return Str([]), None;
    }
  }

  /** The `+` and `-` cases of `ReadResp`, after the prefix byte: the rest of the line, trimmed. */
  method ReadSimple(r: Reader) returns (v: Value, err: Option<RespError>)
    requires r.Valid()
    modifies r
    ensures r.Valid() && r.pos == SimpleLine(r.data, old(r.pos)).next
    ensures Returns(SimpleLine(r.data, old(r.pos)), v, Str([]), err)
  {
    ghost var s, p := r.data, r.pos;
    var msg, e := r.ReadLine();
    if e.Some? {
      return Str([]), Some(Io(e.value));
    }
    SimpleLineAt(s, p, r.pos - 1);
    return Str(TrimSpace(msg)), None;
  }

  /** The `$` case of `ReadResp`, after the prefix byte. */
  method ReadBulk(r: Reader) returns (v: Value, err: Option<RespError>)
    requires r.Valid()
    modifies r
    ensures r.Valid() && r.pos == BulkString(r.data, old(r.pos)).next
    ensures Returns(BulkString(r.data, old(r.pos)), v, Str([]), err)
  {
    ghost var s, p := r.data, r.pos;
    var n, e1 := ReadLength(r);
    if e1.Some? {
      HeaderFails(s, p);
      return Str([]), e1;
    }
    BulkStringAfter(s, p, n, r.pos);
    if n == -1 {
      return Str(Nil), None;
    }
    if n < 0 {
      // `make([]byte, n)` panics on a negative length.
      return Str([]), Some(NegativeLength(n));
    }
    var data, e2 := r.ReadFull(n);
    if e2.Some? {
      return Str([]), Some(Io(e2.value));
    }
    var _, e3 := r.ReadLine();
    if e3.Some? {
      return Str([]), Some(Io(e3.value));
    }
    return Str(data), None;
  }

  /** The `*` case of `ReadResp`, after the prefix byte. */
  method ReadArray(r: Reader) returns (v: Value, err: Option<RespError>)
    requires r.Valid()
    modifies r
    ensures r.Valid() && r.pos == ArrayReply(r.data, old(r.pos)).next
    ensures Returns(ArrayReply(r.data, old(r.pos)), v, Str([]), err)
    decreases |r.data| - r.pos, 2
  {
    ghost var s, p := r.data, r.pos;
    var n, e1 := ReadLength(r);
    if e1.Some? {
      HeaderFails(s, p);
      return Str([]), e1;
    }
    ArrayReplyAfter(s, p, n, r.pos);
    if n == -1 {
      return Str(Nil), None;
    }
    if n <= 0 {
      // `for range n` runs no round at all.
      return Arr([]), None;
    }
    var items, e2 := ReadItems(r, n);
    if e2.Some? {
      return Str([]), e2;
    }
    return Arr(items), None;
  }

  /** The counted loop of `ReadResp` over the `n` items of an array. */
  method ReadItems(r: Reader, n: nat) returns (items: seq<Value>, err: Option<RespError>)
    requires r.Valid()
    modifies r
    ensures r.Valid() && r.pos == ParseItems(r.data, old(r.pos), n).next
    ensures Returns(ParseItems(r.data, old(r.pos), n), items, [], err)
    decreases |r.data| - r.pos, 1
  {
    ghost var s, q := r.data, r.pos;
    items := [];
    var i := 0;
    while i < n
      invariant r.Valid() && r.data == s && q <= r.pos && 0 <= i <= n
      invariant Prepend([], ParseItems(s, q, n)) == Prepend(items, ParseItems(s, r.pos, n - i))
    {
      ItemsStep(s, r.pos, n - i, items);
      var item, e := ReadResp(r);
      if e.Some? {
        PrependNothing(ParseItems(s, q, n));
        return [], e;
      }
      items := items + [item];
      i := i + 1;
    }
    PrependNothing(ParseItems(s, q, n));
    assert items + [] == items;
    err := None;
  }
}
