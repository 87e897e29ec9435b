/**
  The key scan of internal/tui/model.go (`scanRedisKeys`): SCAN rounds over
  the connection until the server hands back cursor "0", collecting every
  string of each reply's key array as a list entry described as "key".

  The server's replies are the bytes of the shared reader; the bytes the scan
  writes are returned. `ScanKeys` is proved to do what `ScanFrom` describes.
 */
module TuiScan {
  import opened GoText
  import opened Stream
  import opened Resp
  import opened RespProps
  import opened RedisClient
  import opened Tui

  /** How a scan ends. */
  datatype ScanEnd =
    | Listed(keys: seq<ListEntry>)   // the cursor came back as "0"
    | Failed(error: RespError)       // a reply could not be read
    | Panicked                       // an array reply with fewer than two items

  /** A whole scan: how it ends, the cursors it sent in order, and where reading stopped. */
  datatype ScanRun = ScanRun(end: ScanEnd, sent: seq<Bytes>, next: nat)

  /** One round's command: SCAN from `cursor`, matching every key. */
  function ScanCommand(cursor: Bytes): Command {
    Command("SCAN", [cursor, "MATCH", "*"])
  }

  /** The bytes written for the rounds that sent `cursors`, in order. */
  function Wire(cursors: seq<Bytes>): Bytes {
    if cursors == [] then []
    else Wire(cursors[..|cursors| - 1]) + EncodeCommand(ScanCommand(cursors[|cursors| - 1]))
  }

  /** The entries for the strings of `xs`, in order; other items are skipped. */
  function KeysOf(xs: seq<Value>): seq<ListEntry> {
    if xs == [] then []
    else
      var last := xs[|xs| - 1];
      KeysOf(xs[..|xs| - 1]) + if last.Str? then [ListEntry(0, last.s, "key")] else []
  }

  /** The entries a reply's second item contributes: none unless it is an array. */
  function KeyEntries(v: Value): seq<ListEntry> {
    if v.Arr? then KeysOf(v.items) else []
  }

  /**
    The scan from `pos` on: `cursor` is the cursor sent next, `keys` the
    entries collected and `sent` the cursors sent so far. A reply that is not
    an array leaves both the cursor and the keys as they were.
   */
  function ScanFrom(s: Bytes, pos: nat, cursor: Bytes, keys: seq<ListEntry>, sent: seq<Bytes>): ScanRun
    requires pos <= |s|
    decreases |s| - pos
  {
    var sent' := sent + [cursor];
    var p := Parse(s, pos);
    match p.result
    case Err(e) => ScanRun(Failed(e), sent', p.next)
    case Ok(v) =>
      if v.Arr? && |v.items| < 2 then ScanRun(Panicked, sent', p.next)
      else
        var c := if v.Arr? && v.items[0].Str? then v.items[0].s else cursor;
        var k := if v.Arr? then keys + KeyEntries(v.items[1]) else keys;
        if c == "0" then ScanRun(Listed(k), sent', p.next)
        else ScanFrom(s, p.next, c, k, sent')
  }

  /** The whole scan as `scanRedisKeys` starts it: cursor "0", nothing collected, nothing sent. */
  function Scan(s: Bytes, pos: nat): ScanRun
    requires pos <= |s|
  {
    ScanFrom(s, pos, "0", [], [])
  }

  lemma WireSnoc(cursors: seq<Bytes>, c: Bytes)
    ensures Wire(cursors + [c]) == Wire(cursors) + EncodeCommand(ScanCommand(c))
  {
    assert (cursors + [c])[..|cursors|] == cursors;
  }

  /** The inner loop over a reply's key array: one entry per string, appended in order. */
  method AppendKeys(keys: seq<ListEntry>, v: Value) returns (r: seq<ListEntry>)
    ensures r == keys + KeyEntries(v)
  {
    r := keys;
    if v.Arr? {
      var slice := v.items;
      for j := 0 to |slice|
        invariant r == keys + KeysOf(slice[..j])
      {
        assert slice[..j + 1][..j] == slice[..j];
        if slice[j].Str? {
          r := r + [ListEntry(0, slice[j].s, "key")];
        }
      }
      assert slice[..|slice|] == slice;
    }
  }

  /**
    `scanRedisKeys`: write a SCAN for the current cursor, read the reply,
    take the new cursor and the keys from it, and stop once the cursor is "0".
   */
  method ScanKeys(r: Reader) returns (end: ScanEnd, written: Bytes)
    requires r.Valid()
    modifies r
    ensures r.Valid() && r.pos == Scan(r.data, old(r.pos)).next
    ensures end == Scan(r.data, old(r.pos)).end && written == Wire(Scan(r.data, old(r.pos)).sent)
  {
    ghost var s, pos0 := r.data, r.pos;
    var cursor: Bytes := "0";
    var filter: Bytes := "*";
    var keys: seq<ListEntry> := [];
    written := [];
    ghost var sent: seq<Bytes> := [];
    while true
      invariant r.Valid() && r.data == s && r.pos <= |s|
      invariant written == Wire(sent)
      invariant Scan(s, pos0) == ScanFrom(s, r.pos, cursor, keys, sent)
      decreases |s| - r.pos
    {
      ghost var p, c0, k0 := r.pos, cursor, keys;
      var bytes := ToBytes(Command("SCAN", [cursor, "MATCH", filter]));
      WireSnoc(sent, cursor);
      written := written + bytes;
      sent := sent + [cursor];
      var response, err := ReadResp(r);
      if err.Some? {
        return Failed(err.value), written;
      }
      if response.Arr? {
        if |response.items| < 2 {
          // `resp[0]` or `resp[1]` is out of range: the command panics.
          return Panicked, written;
        }
        if response.items[0].Str? {
          cursor := response.items[0].s;
        }
        keys := AppendKeys(keys, response.items[1]);
      }
      if cursor == "0" {
        break;
      }
    }
    end := Listed(keys);
  }

  // ---------------------------------------------------------------------------
  // What a scan collects and sends
  // ---------------------------------------------------------------------------

  /** Exactly the strings of `xs` become entries, each described as a key. */
  lemma {:induction false} KeysOfMembers(xs: seq<Value>)
    ensures forall e :: e in KeysOf(xs) <==> e.index == 0 && e.desc == "key" && Str(e.title) in xs
  {
    if xs != [] {
      var init := xs[..|xs| - 1];
      KeysOfMembers(init);
      assert xs == init + [xs[|xs| - 1]];
      assert forall x :: x in xs <==> x in init || x == xs[|xs| - 1];
    }
  }

  /** A key array of strings `ks` gives one entry per string, in the same order. */
  lemma {:induction false} KeysOfStrs(ks: seq<Bytes>)
    ensures |KeysOf(Strs(ks))| == |ks|
    ensures forall i :: 0 <= i < |ks| ==> KeysOf(Strs(ks))[i] == ListEntry(0, ks[i], "key")
  {
    if ks != [] {
      var init := ks[..|ks| - 1];
      assert Strs(ks)[..|ks| - 1] == Strs(init);
      KeysOfStrs(init);
    }
  }

  /**
    The cursors already sent are kept, `cursor` is sent next, and every cursor
    sent after it is one the server returned that was not "0".
   */
  lemma {:induction false} ScanCursors(s: Bytes, pos: nat, cursor: Bytes, keys: seq<ListEntry>, sent: seq<Bytes>)
    requires pos <= |s|
    ensures var run := ScanFrom(s, pos, cursor, keys, sent);
      && |sent| < |run.sent| && run.sent[..|sent|] == sent && run.sent[|sent|] == cursor
      && forall i :: |sent| < i < |run.sent| ==> run.sent[i] != "0"
    decreases |s| - pos
  {
    var p := Parse(s, pos);
    if p.result.Ok? {
      var v := p.result.value;
      if !(v.Arr? && |v.items| < 2) {
        var c := if v.Arr? && v.items[0].Str? then v.items[0].s else cursor;
        var k := if v.Arr? then keys + KeyEntries(v.items[1]) else keys;
        if c != "0" {
          ScanCursors(s, p.next, c, k, sent + [cursor]);
        }
      }
    }
  }

  /** A scan sends cursor "0" first and never again. */
  lemma ScanSendsZeroOnce(s: Bytes, pos: nat)
    requires pos <= |s|
    ensures |Scan(s, pos).sent| > 0 && Scan(s, pos).sent[0] == "0"
    ensures forall i :: 0 < i < |Scan(s, pos).sent| ==> Scan(s, pos).sent[i] != "0"
  {
    ScanCursors(s, pos, "0", [], []);
  }

  /** Keys once collected stay, in front, and everything added is a key entry. */
  lemma {:induction false} ScanKeepsKeys(s: Bytes, pos: nat, cursor: Bytes, keys: seq<ListEntry>, sent: seq<Bytes>)
    requires pos <= |s|
    ensures var run := ScanFrom(s, pos, cursor, keys, sent);
      run.end.Listed? ==>
        && keys <= run.end.keys
        && forall i :: |keys| <= i < |run.end.keys| ==> run.end.keys[i].index == 0 && run.end.keys[i].desc == "key"
    decreases |s| - pos
  {
    var p := Parse(s, pos);
    if p.result.Ok? {
      var v := p.result.value;
      if !(v.Arr? && |v.items| < 2) {
        var c := if v.Arr? && v.items[0].Str? then v.items[0].s else cursor;
        var k := if v.Arr? then keys + KeyEntries(v.items[1]) else keys;
        var added := if v.Arr? then KeyEntries(v.items[1]) else [];
        assert k == keys + added;
        if v.Arr? && v.items[1].Arr? {
          KeysOfMembers(v.items[1].items);
        }
        assert forall i :: 0 <= i < |added| ==> added[i] in added;
        if c != "0" {
          ScanKeepsKeys(s, p.next, c, k, sent + [cursor]);
        }
      }
    }
  }

  /**
    A reply that is not an array changes neither the cursor nor the keys: at
    cursor "0" the scan ends there, otherwise it sends the same cursor again.
   */
  lemma NonArrayReplyKeepsCursor(s: Bytes, pos: nat, cursor: Bytes, keys: seq<ListEntry>, sent: seq<Bytes>, x: Bytes)
    requires pos <= |s| && Parse(s, pos).result == Ok(Str(x))
    ensures cursor == "0" ==>
      ScanFrom(s, pos, cursor, keys, sent) == ScanRun(Listed(keys), sent + [cursor], Parse(s, pos).next)
    ensures cursor != "0" ==>
      ScanFrom(s, pos, cursor, keys, sent) == ScanFrom(s, Parse(s, pos).next, cursor, keys, sent + [cursor])
  {
  }

  /** An array reply of fewer than two items makes the scan panic. */
  lemma ShortArrayPanics(s: Bytes, pos: nat, cursor: Bytes, keys: seq<ListEntry>, sent: seq<Bytes>, xs: seq<Value>)
    requires pos <= |s| && Parse(s, pos).result == Ok(Arr(xs)) && |xs| < 2
    ensures ScanFrom(s, pos, cursor, keys, sent).end == Panicked
  {
  }

  /** The reply of one SCAN round, as a server frames it: the next cursor and the keys. */
  function RoundReply(cursor: Bytes, ks: seq<Bytes>): Value {
    Arr([Str(cursor), Arr(Strs(ks))])
  }

  /** A round whose reply is `RoundReply(c, ks)`: the cursor becomes `c`, the keys of `ks` are added. */
  lemma ScanRound(s: Bytes, pos: nat, cursor: Bytes, keys: seq<ListEntry>, sent: seq<Bytes>, c: Bytes, ks: seq<Bytes>, q: nat)
    requires pos <= |s| && Parse(s, pos) == Parsed(Ok(RoundReply(c, ks)), q)
    ensures c == "0" ==>
      ScanFrom(s, pos, cursor, keys, sent) == ScanRun(Listed(keys + KeysOf(Strs(ks))), sent + [cursor], q)
    ensures c != "0" ==>
      ScanFrom(s, pos, cursor, keys, sent) == ScanFrom(s, q, c, keys + KeysOf(Strs(ks)), sent + [cursor])
  {
  }

  /** One round: a reply with cursor "0" lists its keys, in order, after a single `SCAN 0`. */
  lemma ScanOneRound(ks: seq<Bytes>, rest: Bytes)
    requires Encodable(RoundReply("0", ks))
    ensures var e := EncodeValue(RoundReply("0", ks));
      Scan(e + rest, 0) == ScanRun(Listed(KeysOf(Strs(ks))), ["0"], |e|)
  {
    var e := EncodeValue(RoundReply("0", ks));
    var s := e + rest;
    assert Parse(s, 0) == Parsed(Ok(RoundReply("0", ks)), |e|) by {
      assert s[0..|e|] == e;
      ParseEncoded(RoundReply("0", ks), s, 0);
    }
    ScanRound(s, 0, "0", [], [], "0", ks, |e|);
    assert [] + KeysOf(Strs(ks)) == KeysOf(Strs(ks));
  }

  /**
    Two rounds: the second SCAN sends the cursor the first reply returned, and
    the keys of both replies are listed in reply order.
   */
  lemma ScanTwoRounds(c: Bytes, ks1: seq<Bytes>, ks2: seq<Bytes>, rest: Bytes)
    requires c != "0" && Encodable(RoundReply(c, ks1)) && Encodable(RoundReply("0", ks2))
    ensures var e1, e2 := EncodeValue(RoundReply(c, ks1)), EncodeValue(RoundReply("0", ks2));
      Scan(e1 + e2 + rest, 0)
        == ScanRun(Listed(KeysOf(Strs(ks1)) + KeysOf(Strs(ks2))), ["0", c], |e1| + |e2|)
  {
    var e1, e2 := EncodeValue(RoundReply(c, ks1)), EncodeValue(RoundReply("0", ks2));
    var s := e1 + e2 + rest;
    var q1, q2 := |e1|, |e1| + |e2|;
    assert Parse(s, 0) == Parsed(Ok(RoundReply(c, ks1)), q1) by {
      assert s[0..q1] == e1;
      ParseEncoded(RoundReply(c, ks1), s, 0);
    }
    assert Parse(s, q1) == Parsed(Ok(RoundReply("0", ks2)), q2) by {
      assert s[q1..q2] == e2;
      ParseEncoded(RoundReply("0", ks2), s, q1);
    }
    var k1 := [] + KeysOf(Strs(ks1));
    ScanRound(s, 0, "0", [], [], c, ks1, q1);
    ScanRound(s, q1, c, k1, ["0"], "0", ks2, q2);
    assert k1 == KeysOf(Strs(ks1));
    assert ["0"] + [c] == ["0", c];
  }

  // ---------------------------------------------------------------------------
  // The scan's result as a message
  // ---------------------------------------------------------------------------

  /** The message the scan hands to `Update`; none where the command panics. */
  function ScanMessage(end: ScanEnd): Option<Msg> {
    match end
    case Listed(keys) => Some(RedisResult(KeyList(keys), None))
    case Failed(e) => ReplyMessage(Err(e))
    case Panicked => None
  }

  /** A finished scan for EXPLORE shows the browser with exactly the keys found, in order. */
  lemma ScanShownInBrowser(m: Model, keys: seq<ListEntry>)
    requires m.selectedOp == Explore
    ensures var s := Update(m, ScanMessage(Listed(keys)).value);
      s.model.state == Browser && s.model.keys.items == keys && s.effect == Widget
  {
  }

  /** A scan cut off by a closed connection reconnects, keeping the history. */
  lemma ClosedScanReconnects(m: Model)
    ensures Update(m, ScanMessage(Failed(Io(Eof))).value) == SwitchToLoading(m, Connect(m.address))
  {
  }
}
