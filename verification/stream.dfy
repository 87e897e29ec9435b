/**
  The byte stream the decoder reads from: a `bufio.Reader` over a connection.
  The connection's bytes are a fixed sequence `data`; the reader's only state is
  how far into it it has read. The end of `data` is where the connection is
  closed, so reading past it reports `io.EOF` (or `io.ErrUnexpectedEOF` when a
  fixed-size read gets some but not all of its bytes).
 */
module Stream {
  import opened GoText

  /** `io.EOF` and `io.ErrUnexpectedEOF`. */
  datatype IoError = Eof | UnexpectedEof

  /** The position of the first line feed at or after `pos`, if there is one. */
  function NewlineFrom(s: Bytes, pos: nat): (r: Option<nat>)
    requires pos <= |s|
    ensures r.Some? ==> pos <= r.value < |s|
    decreases |s| - pos
  {
    if pos == |s| then None
    else if s[pos] == '\n' then Some(pos)
    else NewlineFrom(s, pos + 1)
  }

  /** `NewlineFrom` finds a line feed, and the first one, exactly when there is one. */
  lemma {:induction false} NewlineFromIsFirst(s: Bytes, pos: nat)
    requires pos <= |s|
    ensures NewlineFrom(s, pos).Some? ==> s[NewlineFrom(s, pos).value] == '\n'
    ensures NewlineFrom(s, pos).Some? ==> forall k :: pos <= k < NewlineFrom(s, pos).value ==> s[k] != '\n'
    ensures NewlineFrom(s, pos).None? ==> forall k :: pos <= k < |s| ==> s[k] != '\n'
    decreases |s| - pos
  {
    if pos < |s| && s[pos] != '\n' {
      NewlineFromIsFirst(s, pos + 1);
    }
  }

  /** The converse: a line feed with none before it is the one `NewlineFrom` finds. */
  lemma {:induction false} NewlineAt(s: Bytes, pos: nat, k: nat)
    requires pos <= k < |s| && s[k] == '\n'
    requires forall j :: pos <= j < k ==> s[j] != '\n'
    ensures NewlineFrom(s, pos) == Some(k)
    decreases k - pos
  {
    if pos < k {
      NewlineAt(s, pos + 1, k);
    }
  }

  class Reader {
    const data: Bytes
    var pos: nat

    ghost predicate Valid()
      reads this
    {
      pos <= |data|
    }

    constructor (data: Bytes)
      ensures Valid() && this.data == data && pos == 0
    {
      this.data := data;
      pos := 0;
    }

    /** `ReadByte`: the next byte, or `io.EOF` at the end of the stream. */
    method ReadByte() returns (b: Byte, err: Option<IoError>)
      requires Valid()
      modifies this
      ensures Valid()
      ensures old(pos) < |data| ==> err.None? && b == data[old(pos)] && pos == old(pos) + 1
      ensures old(pos) == |data| ==> err == Some(Eof) && pos == old(pos)
    {
      if pos == |data| {
        b, err := 0 as char, Some(Eof);
      } else {
        b, err := data[pos], None;
        pos := pos + 1;
      }
    }

    /**
      `ReadString('\n')`: everything up to and including the next line feed; at
      the end of the stream without one, everything that is left and `io.EOF`.
     */
    method ReadLine() returns (line: Bytes, err: Option<IoError>)
      requires Valid()
      modifies this
      ensures Valid()
      ensures match NewlineFrom(data, old(pos))
        case Some(k) => line == data[old(pos)..k + 1] && pos == k + 1 && err.None?
        case None => line == data[old(pos)..] && pos == |data| && err == Some(Eof)
    {
      var k := NewlineFrom(data, pos);
      match k {
        case Some(k) =>
          line, err := data[pos..k + 1], None;
          pos := k + 1;
        case None =>
          line, err := data[pos..], Some(Eof);
          pos := |data|;
      }
    }

    /**
      `io.ReadFull(reader, make([]byte, n))`: exactly `n` bytes; at the end of
      the stream `io.EOF` if none could be read and `io.ErrUnexpectedEOF` if
      only some could.
     */
    method ReadFull(n: nat) returns (buf: Bytes, err: Option<IoError>)
      requires Valid()
      modifies this
      ensures Valid()
      ensures old(pos) + n <= |data| ==> buf == data[old(pos)..old(pos) + n] && pos == old(pos) + n && err.None?
      ensures old(pos) + n > |data| ==>
        pos == |data| && err == Some(if old(pos) == |data| then Eof else UnexpectedEof)
    {
      if pos + n <= |data| {
        buf, err := data[pos..pos + n], None;
        pos := pos + n;
      } else {
        buf, err := data[pos..], Some(if pos == |data| then Eof else UnexpectedEof);
        pos := |data|;
      }
    }
  }
}
