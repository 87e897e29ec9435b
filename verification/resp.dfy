/**
  The RESP2 wire format as the client speaks it: how a command is framed
  (an array of bulk strings) and how one reply is decoded from the stream.

  Decoding is specified by `Parse`, a function from the stream and a read
  position to the decoded value (or the error) and the position where reading
  stopped. The reader methods of the client (module RedisClient, of which
  main.go holds an identical copy) are proved to compute exactly this.

  The decoder only ever produces a string or an array of decoded values, the
  two dynamic types (`string`, `[]any`) that the Go code returns:
  - simple strings (`+`) and errors (`-`) both become the trimmed line text;
  - a null bulk string (`$-1`) and a null array (`*-1`) both become the text "(nil)";
  - a byte that starts no known reply type, the integer prefix `:` included,
    becomes the empty string, and only that one byte is consumed.
 */
module Resp {
  import opened GoText
  import opened Stream

  datatype Value = Str(s: Bytes) | Arr(items: seq<Value>)

  /** `RedisCmd`: a command name and its arguments. */
  datatype Command = Command(name: Bytes, args: seq<Bytes>)

  /**
    Why a read failed: the stream ended (`io.EOF`, `io.ErrUnexpectedEOF`), a
    length or count line is not a number (`*strconv.NumError`), or a bulk length
    is negative but not -1, where Go's `make` panics.
   */
  datatype RespError = Io(io: IoError) | BadNumber(num: NumError) | NegativeLength(n: int)

  /** What a read produced, and the stream position it stopped at. */
  datatype Parsed<T> = Parsed(result: Result<T, RespError>, next: nat)

  /** The text that stands for a null bulk string or a null array. */
  const Nil: Bytes := "(nil)"

  // ---------------------------------------------------------------------------
  // Encoding
  // ---------------------------------------------------------------------------

  /** One bulk string: `$`, its length in bytes, CRLF, the bytes, CRLF. */
  function Bulk(x: Bytes): Bytes {
    "$" + Itoa(|x|) + "\r\n" + x + "\r\n"
  }

  function BulkArgs(args: seq<Bytes>): Bytes {
    if args == [] then [] else Bulk(args[0]) + BulkArgs(args[1..])
  }

  /**
    The bytes `RedisCmd.ToBytes` writes: an array header counting the name and
    the arguments, then the name and each argument, in order, as bulk strings.
   */
  function EncodeCommand(cmd: Command): Bytes {
    "*" + Itoa(|cmd.args| + 1) + "\r\n" + Bulk(cmd.name) + BulkArgs(cmd.args)
  }

  /**
    How a server frames a value it sends back: strings as bulk strings and
    arrays as an array header followed by the framed items. This is the
    reference the decoder is proved against.
   */
  function EncodeValue(v: Value): Bytes
    decreases v
  {
    match v
    case Str(x) => Bulk(x)
    case Arr(xs) => "*" + Itoa(|xs|) + "\r\n" + EncodeAll(xs)
  }

  function EncodeAll(xs: seq<Value>): Bytes
    decreases xs
  {
    if xs == [] then [] else EncodeValue(xs[0]) + EncodeAll(xs[1..])
  }

  function Strs(args: seq<Bytes>): (r: seq<Value>)
    ensures |r| == |args| && forall i :: 0 <= i < |args| ==> r[i] == Str(args[i])
  {
    seq(|args|, i requires 0 <= i < |args| => Str(args[i]))
  }

  /** The value a command is, seen as a reply: the array of its name and arguments. */
  function CommandValue(cmd: Command): Value {
    Arr([Str(cmd.name)] + Strs(cmd.args))
  }

  /** Values whose lengths and counts a 64-bit `int` can hold. */
  predicate Encodable(v: Value)
    decreases v
  {
    match v
    case Str(x) => |x| <= MaxInt
    case Arr(xs) => |xs| <= MaxInt && forall i :: 0 <= i < |xs| ==> Encodable(xs[i])
  }

  // ---------------------------------------------------------------------------
  // Decoding
  // ---------------------------------------------------------------------------

  /**
    A length or count line after a `$` or `*` prefix: read through the next line
    feed, trim it and convert it with `strconv.Atoi`.
   */
  function LengthLine(s: Bytes, p: nat): (r: Parsed<int>)
    requires p <= |s|
    ensures p <= r.next <= |s|
    ensures r.result.Ok? ==> p < r.next
  {
    match NewlineFrom(s, p)
    case None => Parsed(Err(Io(Eof)), |s|)
    case Some(k) => Number(s[p..k + 1], k + 1)
  }

  /** The number on a length or count line, with the position after that line. */
  function Number(line: Bytes, next: nat): Parsed<int> {
    match Atoi(TrimSpace(line))
    case Err(e) => Parsed(Err(BadNumber(e)), next)
    case Ok(n) => Parsed(Ok(n), next)
  }

  /**
    The body of a bulk string of length `n` starting at `d`: exactly `n` bytes,
    then everything through the next line feed is discarded.
   */
  function BulkBody(s: Bytes, d: nat, n: nat): (r: Parsed<Value>)
    requires d <= |s|
    ensures d <= r.next <= |s|
  {
    if d + n > |s| then Parsed(Err(Io(if d == |s| then Eof else UnexpectedEof)), |s|)
    else
      match NewlineFrom(s, d + n)
      case None => Parsed(Err(Io(Eof)), |s|)
      case Some(k) => Parsed(Ok(Str(s[d..d + n])), k + 1)
  }

  /** `ReadResp`: decode one reply starting at `pos`, dispatching on its prefix byte. */
  function Parse(s: Bytes, pos: nat): (r: Parsed<Value>)
    requires pos <= |s|
    ensures pos <= r.next <= |s|
    ensures r.result.Ok? ==> pos < r.next
    decreases |s| - pos, 0
  {
    if pos == |s| then Parsed(Err(Io(Eof)), pos)
    else if s[pos] == '+' || s[pos] == '-' then SimpleLine(s, pos + 1)
    else if s[pos] == '$' then BulkString(s, pos + 1)
    else if s[pos] == '*' then ArrayReply(s, pos + 1)
    else Parsed(Ok(Str([])), pos + 1)
  }

  /** After `+` or `-`: the rest of the line, trimmed. */
  function SimpleLine(s: Bytes, p: nat): (r: Parsed<Value>)
    requires p <= |s|
    ensures p <= r.next <= |s|
  {
    match NewlineFrom(s, p)
    case None => Parsed(Err(Io(Eof)), |s|)
    case Some(k) => Parsed(Ok(Str(TrimSpace(s[p..k + 1]))), k + 1)
  }

  /** After `$`: a length line, then -1 for null or that many bytes. */
  function BulkString(s: Bytes, p: nat): (r: Parsed<Value>)
    requires p <= |s|
    ensures p <= r.next <= |s|
  {
    var h := LengthLine(s, p);
    match h.result
    case Err(e) => Parsed(Err(e), h.next)
    case Ok(n) =>
      if n == -1 then Parsed(Ok(Str(Nil)), h.next)
      else if n < 0 then Parsed(Err(NegativeLength(n)), h.next)
      else BulkBody(s, h.next, n)
  }

  /** After `*`: a count line, then -1 for null or that many items. */
  function ArrayReply(s: Bytes, p: nat): (r: Parsed<Value>)
    requires p <= |s|
    ensures p <= r.next <= |s|
    decreases |s| - p, 0
  {
    var h := LengthLine(s, p);
    match h.result
    case Err(e) => Parsed(Err(e), h.next)
    case Ok(n) =>
      if n == -1 then Parsed(Ok(Str(Nil)), h.next)
      else if n <= 0 then Parsed(Ok(Arr([])), h.next)
      else
        var items := ParseItems(s, h.next, n);
        match items.result
        case Ok(xs) => Parsed(Ok(Arr(xs)), items.next)
        case Err(e) => Parsed(Err(e), items.next)
  }

  /** The `n` items of an array, one `ReadResp` after the other; the first error stops the read. */
  function ParseItems(s: Bytes, p: nat, n: nat): (r: Parsed<seq<Value>>)
    requires p <= |s|
    ensures p <= r.next <= |s|
    ensures r.result.Ok? ==> |r.result.value| == n
    decreases |s| - p, 1, n
  {
    if n == 0 then Parsed(Ok([]), p)
    else
      var h := Parse(s, p);
      match h.result
      case Err(e) => Parsed(Err(e), h.next)
      case Ok(x) =>
        var t := ParseItems(s, h.next, n - 1);
        match t.result
        case Ok(xs) => Parsed(Ok([x] + xs), t.next)
        case Err(e) => Parsed(Err(e), t.next)
  }
}
