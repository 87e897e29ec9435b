/**
  What the session controller guarantees: how replies become list entries,
  the history kept across Loading and Confirmation, the reconnection loop,
  the reply table, the destructive commands, and the two places where the
  controller waits for a reply it cannot accept.
 */
module TuiProps {
  import opened GoText
  import opened Stream
  import opened Resp
  import opened RespProps
  import opened Tui

  // ---------------------------------------------------------------------------
  // List entries built from replies
  // ---------------------------------------------------------------------------

  /** Every operation string survives the tag encoding, so tags compare as the strings do. */
  lemma OpNameOfOp(s: Bytes)
    ensures OpName(OpOf(s)) == s
    ensures OpOf(s).Named? <==> s !in OpNames()
  {
  }

  /** HKEYS: exactly the strings of the reply become entries, each a hash field. */
  lemma {:induction false} HashFieldEntriesMembers(xs: seq<Value>)
    ensures forall e :: e in HashFieldEntries(xs) <==>
      e.index == 0 && e.desc == "Hash Field" && Str(e.title) in xs
  {
    if xs != [] {
      HashFieldEntriesMembers(xs[1..]);
      assert forall x :: x in xs <==> x == xs[0] || x in xs[1..];
    }
  }

  /**
    HKEYS and LRANGE list the same strings in the same order; HKEYS only
    describes them as hash fields instead of by position.
   */
  lemma {:induction false} HashFieldsAreIndexed(xs: seq<Value>, i: nat)
    requires i <= |xs|
    ensures |HashFieldEntries(xs[i..])| == |IndexedEntries(xs, i)|
    ensures forall k :: 0 <= k < |IndexedEntries(xs, i)| ==>
      HashFieldEntries(xs[i..])[k] == ListEntry(0, IndexedEntries(xs, i)[k].title, "Hash Field")
    decreases |xs| - i
  {
    if i < |xs| {
      HashFieldsAreIndexed(xs, i + 1);
      assert xs[i..][1..] == xs[i + 1..];
    }
  }

  /**
    LRANGE and SMEMBERS: an entry is listed exactly when its index is a
    position of the reply holding that string, and it is described by that
    position.
   */
  lemma {:induction false} IndexedEntriesMembers(xs: seq<Value>, i: nat)
    requires i <= |xs|
    ensures forall e :: e in IndexedEntries(xs, i) <==>
      i <= e.index < |xs| && xs[e.index] == Str(e.title) && e.desc == "Index: " + Itoa(e.index)
    decreases |xs| - i
  {
    if i < |xs| {
      IndexedEntriesMembers(xs, i + 1);
    }
  }

  /** LRANGE and SMEMBERS: entries keep the order of the reply. */
  lemma {:induction false} IndexedEntriesOrdered(xs: seq<Value>, i: nat)
    requires i <= |xs|
    ensures forall a, b :: 0 <= a < b < |IndexedEntries(xs, i)| ==>
      IndexedEntries(xs, i)[a].index < IndexedEntries(xs, i)[b].index
    decreases |xs| - i
  {
    if i < |xs| {
      IndexedEntriesOrdered(xs, i + 1);
      IndexedEntriesMembers(xs, i + 1);
      var r := IndexedEntries(xs, i + 1);
      assert forall b :: 0 <= b < |r| ==> r[b] in r;
    }
  }

  /**
    The entry for the member at position `i + 2 * k`: that position holds the
    title, the description is the score after it, and the index is left 0.
   */
  predicate ScoredAt(xs: seq<Value>, i: nat, k: nat, e: ListEntry) {
    var j := i + 2 * k;
    j < |xs| && xs[j].Str? && e == ScoredEntry(xs, j)
  }

  /**
    ZRANGE WITHSCORES: an entry is listed exactly when a member position
    (every second one, from `i` on) holds its title, and it carries the score
    that follows that member, or "unknown".
   */
  lemma {:induction false} ScoredEntriesMembers(xs: seq<Value>, i: nat)
    ensures forall e :: e in ScoredEntries(xs, i) <==> exists k: nat :: ScoredAt(xs, i, k, e)
    decreases |xs| - i
  {
    if i < |xs| {
      var i2 := i + 2;
      ScoredEntriesMembers(xs, i2);
      forall e: ListEntry
        ensures e in ScoredEntries(xs, i) <==> ScoredAt(xs, i, 0, e) || e in ScoredEntries(xs, i2)
        ensures (exists k: nat :: ScoredAt(xs, i, k, e)) <==>
          ScoredAt(xs, i, 0, e) || exists k: nat :: ScoredAt(xs, i2, k, e)
      {
        if exists k: nat :: ScoredAt(xs, i, k, e) {
          var k: nat :| ScoredAt(xs, i, k, e);
          if k > 0 {
            assert ScoredAt(xs, i2, k - 1, e);
          }
        }
        if exists k: nat :: ScoredAt(xs, i2, k, e) {
          var k: nat :| ScoredAt(xs, i2, k, e);
          assert ScoredAt(xs, i, k + 1, e);
        }
      }
    } else {
      forall e: ListEntry, k: nat
        ensures !ScoredAt(xs, i, k, e)
      {
      }
    }
  }

  /** `p` is a member position of a ZRANGE reply read from `i`: `i`, `i + 2`, `i + 4`, ... */
  predicate MemberPosition(i: nat, p: int)
    decreases p - i
  {
    p == i || (p >= i + 2 && MemberPosition(i + 2, p))
  }

  /**
    ZRANGE WITHSCORES, entry by entry: the entries are one per member position
    that holds a string, in the order of those positions, each carrying that
    member and the score after it.
   */
  lemma {:induction false} ScoredEntriesInOrder(xs: seq<Value>, i: nat) returns (ps: seq<nat>)
    ensures |ps| == |ScoredEntries(xs, i)|
    ensures forall j :: 0 <= j < |ps| ==>
      MemberPosition(i, ps[j]) && ps[j] < |xs| && xs[ps[j]].Str? && ScoredEntries(xs, i)[j] == ScoredEntry(xs, ps[j])
    ensures forall a, b :: 0 <= a < b < |ps| ==> ps[a] < ps[b]
    ensures forall p :: MemberPosition(i, p) && p < |xs| && xs[p].Str? ==> p in ps
    decreases |xs| - i
  {
    if i >= |xs| {
      ps := [];
    } else {
      var rest := ScoredEntriesInOrder(xs, i + 2);
      var r := ScoredEntries(xs, i + 2);
      forall j | 0 <= j < |rest| ensures i + 2 <= rest[j] {
        MemberPositionAbove(i + 2, rest[j]);
      }
      if xs[i].Str? {
        ps := [i] + rest;
        assert ScoredEntries(xs, i) == [ScoredEntry(xs, i)] + r;
        forall j | 1 <= j < |ps|
          ensures ps[j] == rest[j - 1] && ScoredEntries(xs, i)[j] == r[j - 1]
        {
        }
      } else {
        ps := rest;
        assert ScoredEntries(xs, i) == r;
      }
    }
  }

  lemma {:induction false} MemberPositionAbove(i: nat, p: int)
    requires MemberPosition(i, p)
    ensures i <= p
    decreases p - i
  {
    if p != i {
      MemberPositionAbove(i + 2, p);
    }
  }

  // ---------------------------------------------------------------------------
  // History across Loading
  // ---------------------------------------------------------------------------

  /**
    `switchToLoadingAndExecute` always enters Loading and hands over `e`, and it
    remembers the state it left only when that was not Loading itself.
   */
  lemma SwitchToLoadingHistory(m: Model, e: Effect)
    ensures SwitchToLoading(m, e).model.state == Loading && SwitchToLoading(m, e).effect == e
    ensures SwitchToLoading(m, e).model.previous == if m.state == Loading then m.previous else m.state
    ensures SwitchToLoading(m, e).model.(state := m.state, previous := m.previous) == m
  {
  }

  /** Entering Loading again, for a reconnect or a follow-up command, keeps the state to resume. */
  lemma LoadingAgainKeepsHistory(m: Model, e1: Effect, e2: Effect)
    ensures SwitchToLoading(SwitchToLoading(m, e1).model, e2) == SwitchToLoading(m, e2)
  {
  }

  /** Whatever happens, the state to go back to is never Loading itself. */
  lemma PreviousNeverLoading(m: Model, msg: Msg)
    requires m.previous != Loading
    ensures Update(m, msg).model.previous != Loading
  {
    if msg != Tick {
      UpdateSound(m, msg);
    }
  }

  /** A command, a scan or a connection attempt is started. */
  predicate Starts(s: Step) {
    s.effect.Send? || s.effect == ScanKeys || s.effect.Connect?
  }

  /**
    A step from `m` keeps a history that is not Loading, starts work only
    while entering Loading, and keeps the address, which is the one it dials.
   */
  predicate Sound(m: Model, s: Step) {
    && (m.previous != Loading ==> s.model.previous != Loading)
    && (Starts(s) ==> s.model.state == Loading)
    && s.model.address == m.address
    && (s.effect.Connect? ==> s.effect.address == m.address)
  }

  lemma MenuSound(m: Model, msg: Msg)
    requires m.state == Menu
    ensures Sound(m, MenuStep(m, msg))
  {
  }

  lemma InputKeySound(m: Model, msg: Msg)
    requires m.state == InputKey
    ensures Sound(m, InputKeyStep(m, msg))
  {
  }

  lemma InputFieldSound(m: Model, msg: Msg)
    requires m.state == InputField
    ensures Sound(m, InputFieldStep(m, msg))
  {
  }

  lemma InputValueSound(m: Model, msg: Msg)
    requires m.state == InputValue
    ensures Sound(m, InputValueStep(m, msg))
  {
  }

  lemma FieldSelectSound(m: Model, msg: Msg)
    requires m.state == FieldSelect
    ensures Sound(m, FieldSelectStep(m, msg))
  {
  }

  lemma OutputSound(m: Model, msg: Msg)
    requires m.state == Output
    ensures Sound(m, OutputStep(m, msg))
  {
  }

  lemma BrowserSound(m: Model, msg: Msg)
    requires m.state == Browser
    ensures Sound(m, BrowserStep(m, msg))
  {
  }

  lemma ConfirmationSound(m: Model, msg: Msg)
    requires m.state == Confirmation
    ensures Sound(m, ConfirmationStep(m, msg))
  {
  }

  /** Every state's key handling is sound. */
  lemma DispatchSound(m: Model, msg: Msg)
    ensures Sound(m, Dispatch(m, msg))
  {
    match m.state
    case Menu => MenuSound(m, msg);
    case InputKey => InputKeySound(m, msg);
    case InputField => InputFieldSound(m, msg);
    case InputValue => InputValueSound(m, msg);
    case FieldSelect => FieldSelectSound(m, msg);
    case Output => OutputSound(m, msg);
    case Browser => BrowserSound(m, msg);
    case Loading =>
    case Confirmation => ConfirmationSound(m, msg);
  }

  /** A reply either finishes with a sound step or leaves the history alone. */
  lemma OnReplySound(m: Model, p: Payload)
    ensures OnReply(m, p).Done? ==> Sound(m, OnReply(m, p).step)
    ensures OnReply(m, p).Continue? ==>
      OnReply(m, p).model.previous == m.previous && OnReply(m, p).model.address == m.address
  {
  }

  /** Every message but the retry tick gives a sound step. */
  lemma UpdateSound(m: Model, msg: Msg)
    requires msg != Tick
    ensures Sound(m, Update(m, msg))
  {
    match msg
    case Key(k) => DispatchSound(m, msg);
    case ConnectionFailed =>
    case ConnectionOk => DispatchSound(m.(state := m.previous), msg);
    case RedisResult(p, e) =>
      if e != Some(Transport) {
        var m1 := if e.Some? then m.(output := e.value.text, state := Output) else m;
        OnReplySound(m1, p);
        if OnReply(m1, p).Continue? {
          DispatchSound(OnReply(m1, p).model, msg);
        }
      }
    case Other => DispatchSound(m, msg);
  }

  // ---------------------------------------------------------------------------
  // Reconnection
  // ---------------------------------------------------------------------------

  /** No message changes `RedisAddress`, and every dial a step asks for is of that address. */
  lemma AddressKept(m: Model, msg: Msg)
    ensures Update(m, msg).model.address == m.address
    ensures Update(m, msg).effect.Connect? ==> Update(m, msg).effect.address == m.address
  {
    if msg != Tick {
      UpdateSound(m, msg);
    }
  }

  /** The session after each message of `msgs` in turn. */
  function Run(m: Model, msgs: seq<Msg>): Model
    decreases |msgs|
  {
    if msgs == [] then m else Run(Update(m, msgs[0]).model, msgs[1..])
  }

  /** `n` failed connection attempts, each followed by the end of the retry delay. */
  function Retries(n: nat): seq<Msg> {
    if n == 0 then [] else [ConnectionFailed, Tick] + Retries(n - 1)
  }

  /** A failed attempt waits, and the end of the wait dials again; neither changes the session. */
  lemma {:induction false} RetriesChangeNothing(m: Model, n: nat)
    ensures Update(m, ConnectionFailed) == Step(m, Wait)
    ensures Update(m, Tick) == Step(m, Connect(m.address))
    ensures Run(m, Retries(n)) == m
  {
    if n > 0 {
      RetriesChangeNothing(m, n - 1);
      assert Retries(n)[1..][1..] == Retries(n - 1);
    }
  }

  /**
    A successful connection returns to the remembered state and changes
    nothing else.
   */
  lemma ConnectionRestoresPrevious(m: Model)
    ensures Update(m, ConnectionOk).model == m.(state := m.previous)
    ensures Update(m, ConnectionOk).effect == if m.previous in {Output, Loading} then NoEffect else Widget
  {
  }

  /**
    The reconnection loop: a transport error enters Loading and dials; any
    number of failed attempts retry after a wait; the first success resumes
    the state the error interrupted (or, if that was Loading, the state
    Loading was going to resume), with the rest of the session unchanged.
   */
  lemma Reconnect(m: Model, p: Payload, n: nat)
    ensures Update(m, RedisResult(p, Some(Transport))).effect == Connect(m.address)
    ensures Update(m, RedisResult(p, Some(Transport))).model.state == Loading
    ensures
      var resumed := if m.state == Loading then m.previous else m.state;
      Update(Run(Update(m, RedisResult(p, Some(Transport))).model, Retries(n)), ConnectionOk).model
        == m.(state := resumed, previous := resumed)
  {
    var down := Update(m, RedisResult(p, Some(Transport))).model;
    RetriesChangeNothing(down, n);
    ConnectionRestoresPrevious(down);
  }

  // ---------------------------------------------------------------------------
  // The reply table
  // ---------------------------------------------------------------------------

  /**
    The answer to a TYPE probe picks the command that reads a key of that type,
    tags the session with it and waits for its reply, keeping the history.
   */
  lemma ProbeSendsExploreCommand(m: Model, t: Bytes)
    requires m.selectedOp == CheckType
    ensures var s := Update(m, RedisResult(Reply(Str(t)), None));
      && (t == "string" ==> s.effect == Send(Command("GET", [m.activeKey])) && s.model.selectedOp == Get)
      && (t == "hash" ==> s.effect == Send(Command("HKEYS", [m.activeKey])) && s.model.selectedOp == HKeys)
      && (t == "list" ==> s.effect == Send(Command("LRANGE", [m.activeKey, "0", "-1"])) && s.model.selectedOp == LRange)
      && (t == "set" ==> s.effect == Send(Command("SMEMBERS", [m.activeKey])) && s.model.selectedOp == SMembers)
      && (t == "zset" ==>
            s.effect == Send(Command("ZRANGE", [m.activeKey, "0", "-1", "WITHSCORES"])) && s.model.selectedOp == ZRange)
      && (t in {"string", "hash", "list", "set", "zset"} ==>
            s.model.state == Loading && s.model.previous == (if m.state == Loading then m.previous else m.state))
  {
  }

  /**
    An answer to a TYPE probe naming no type it knows is not acted upon: a
    session waiting in Loading keeps waiting.
   */
  lemma ProbeOfUnknownTypeStalls(m: Model, t: Bytes)
    requires m.selectedOp == CheckType && m.state == Loading
    requires t !in {"string", "hash", "list", "set", "zset"}
    ensures Update(m, RedisResult(Reply(Str(t)), None)) == Step(m, NoEffect)
  {
  }

  /**
    The tag a TYPE probe sets is one whose reply branch accepts the reply of
    the command it sent: an array for a hash, list, set or sorted set, a
    string for a string.
   */
  lemma ProbeThenReply(m: Model, t: Bytes, xs: seq<Value>, x: Bytes)
    requires m.selectedOp == CheckType
    ensures t in {"hash", "list", "set", "zset"} ==>
      Update(Update(m, RedisResult(Reply(Str(t)), None)).model, RedisResult(Reply(Arr(xs)), None)).model.state
        == FieldSelect
    ensures t == "string" ==>
      var after := Update(Update(m, RedisResult(Reply(Str(t)), None)).model, RedisResult(Reply(Str(x)), None)).model;
      after.state == Output && after.output == x
  {
    var probed := Update(m, RedisResult(Reply(Str(t)), None)).model;
    ProbeSendsExploreCommand(m, t);
    if t == "hash" {
      HashReply(probed, xs);
    } else if t == "list" || t == "set" {
      ListReplyStep(probed, xs);
    } else if t == "zset" {
      ZrangeReply(probed, xs);
    } else if t == "string" {
      assert OnReply(probed, Reply(Str(x))) == Continue(probed.(output := x, state := Output));
    }
  }

  /**
    ZRANGE: the reply becomes the field list of member entries with their
    scores, browsed as a list.
   */
  lemma ZrangeReply(m: Model, xs: seq<Value>)
    requires m.selectedOp == ZRange
    ensures var s := Update(m, RedisResult(Reply(Arr(xs)), None));
      && s.model == m.(fields := SetItems(m.fields, ScoredEntries(xs, 0)), selectedOp := ExploreList, state := FieldSelect)
      && s.effect == Widget
    ensures forall e :: e in Update(m, RedisResult(Reply(Arr(xs)), None)).model.fields.items <==>
      exists k: nat :: ScoredAt(xs, 0, k, e)
  {
    ScoredEntriesMembers(xs, 0);
  }

  /**
    LRANGE and SMEMBERS: the reply becomes the field list of its strings, each
    carrying its position in the reply, browsed as a list.
   */
  lemma ListReplyStep(m: Model, xs: seq<Value>)
    requires m.selectedOp == LRange || m.selectedOp == SMembers
    ensures var s := Update(m, RedisResult(Reply(Arr(xs)), None));
      && s.model == m.(fields := SetItems(m.fields, IndexedEntries(xs, 0)), selectedOp := ExploreList, state := FieldSelect)
      && s.effect == Widget
  {
    var p := Reply(Arr(xs));
    var m1 := m.(fields := SetItems(m.fields, IndexedEntries(xs, 0)), selectedOp := ExploreList, state := FieldSelect);
    assert OnReply(m, p) == Continue(m1);
    assert FieldSelectStep(m1, RedisResult(p, None)) == Step(m1, Widget);
  }

  /** LRANGE and SMEMBERS: the listed entries are exactly the reply's strings, by position. */
  lemma ListReply(m: Model, xs: seq<Value>)
    requires m.selectedOp == LRange || m.selectedOp == SMembers
    ensures forall e :: e in Update(m, RedisResult(Reply(Arr(xs)), None)).model.fields.items <==>
      0 <= e.index < |xs| && xs[e.index] == Str(e.title) && e.desc == "Index: " + Itoa(e.index)
  {
    ListReplyStep(m, xs);
    IndexedEntriesMembers(xs, 0);
  }

  /** HKEYS: the reply becomes the field list of its strings, as hash fields. */
  lemma HashReply(m: Model, xs: seq<Value>)
    requires m.selectedOp == HKeys
    ensures var s := Update(m, RedisResult(Reply(Arr(xs)), None));
      && s.model == m.(fields := SetItems(m.fields, HashFieldEntries(xs)), state := FieldSelect)
      && s.effect == Widget
    ensures forall e :: e in Update(m, RedisResult(Reply(Arr(xs)), None)).model.fields.items <==>
      e.index == 0 && e.desc == "Hash Field" && Str(e.title) in xs
  {
    HashFieldEntriesMembers(xs);
  }

  /**
    A command error other than a transport failure is shown in Output with its
    text when the tag in progress is one whose reply branch expects a value it
    does not find (or has no branch at all).
   */
  lemma FailureShown(m: Model, text: Bytes)
    requires m.selectedOp in {Get, HGet, HKeys, LRange, SMembers, ZRange, Explore, ExploreList} || m.selectedOp.Named?
    ensures Update(m, RedisResult(NoPayload, Some(Failure(text))))
      == Step(m.(output := text, state := Output), NoEffect)
  {
  }

  /**
    For SET, LSET, the TYPE probe, DELETE, HSET and RPUSH the error text is
    written to the output and then overwritten: Output shows "Unexpected
    response" instead.
   */
  lemma FailureOverwritten(m: Model, text: Bytes)
    requires m.selectedOp in {Set, LSet, CheckType, Delete, HSet, RPush}
    ensures Update(m, RedisResult(NoPayload, Some(Failure(text))))
      == Step(m.(output := Unexpected, state := Output), NoEffect)
  {
  }

  /**
    A failed DEL, HDEL or LREM is reported as done: the output announces the
    deletion, the list is refreshed, and since the error had already moved the
    session to Output, Output is the state the refresh returns to.
   */
  lemma FailedDeleteReported(m: Model, text: Bytes)
    requires m.selectedOp in {Del, HDel, LRem}
    ensures var s := Update(m, RedisResult(NoPayload, Some(Failure(text))));
      && s.model.state == Loading && s.model.previous == Output
      && (m.selectedOp == Del ==>
            s == Step(m.(output := "Deleted Key: " + m.activeKey, selectedOp := Explore,
                         previous := Output, state := Loading), ScanKeys))
      && (m.selectedOp == HDel ==>
            s == Step(m.(output := "Deleted Hash Key: " + m.activeKey, selectedOp := HKeys,
                         previous := Output, state := Loading), Send(Command("HKEYS", [m.activeKey]))))
      && (m.selectedOp == LRem ==>
            s == Step(m.(output := "Removed element from list: " + m.activeKey, selectedOp := LRange,
                         previous := Output, state := Loading), Send(Command("LRANGE", [m.activeKey, "0", "-1"]))))
  {
  }

  // ---------------------------------------------------------------------------
  // Two replies the controller cannot accept
  // ---------------------------------------------------------------------------

  /**
    HGET entered from the menu sends HKEYS but keeps the tag HGET, whose reply
    branch only accepts a string: the array HKEYS answers leaves the session
    in Loading.
   */
  lemma HgetFromInputKeyStalls(m: Model, xs: seq<Value>)
    requires m.state == InputKey && m.selectedOp == HGet
    ensures var s := Update(m, Key("enter"));
      && s.effect == Send(Command("HKEYS", [m.input]))
      && s.model.selectedOp == HGet && s.model.state == Loading
      && Update(s.model, RedisResult(Reply(Arr(xs)), None)) == Step(s.model, NoEffect)
  {
  }

  /**
    DELETE, HSET and RPUSH expect an integer reply, which the decoder never
    produces: an integer reply (`:` and digits) is read as "" from its first
    byte alone, and every outcome is shown as "Unexpected response".
   */
  lemma DeleteNeverGetsInteger(m: Model, p: Payload, digits: Bytes, rest: Bytes)
    requires m.selectedOp in {Delete, HSet, RPush}
    ensures Parse(":" + digits + "\r\n" + rest, 0) == Parsed(Ok(Str([])), 1)
    ensures Update(m, RedisResult(p, None)).model.output == Unexpected
    ensures Update(m, RedisResult(p, None)).model.state == Output
  {
    IntegerReplyIgnored(digits, rest);
  }

  // ---------------------------------------------------------------------------
  // Loading and the commands in flight
  // ---------------------------------------------------------------------------

  /** Loading takes no interactive input: only ctrl+c, a result or a connection event acts. */
  lemma LoadingIgnoresInput(m: Model, msg: Msg)
    requires m.state == Loading
    requires msg == Other || (msg.Key? && msg.key != "ctrl+c")
    ensures Update(m, msg) == Step(m, NoEffect)
  {
  }

  /**
    A command or a scan is only ever started together with entering Loading,
    and a connection attempt only from Loading or at the end of a retry delay.
   */
  lemma CommandsOnlyFromLoading(m: Model, msg: Msg)
    ensures Update(m, msg).effect.Send? ==> Update(m, msg).model.state == Loading
    ensures Update(m, msg).effect == ScanKeys ==> Update(m, msg).model.state == Loading
    ensures Update(m, msg).effect.Connect? ==> msg == Tick || Update(m, msg).model.state == Loading
  {
    if msg != Tick {
      UpdateSound(m, msg);
    }
  }

  // ---------------------------------------------------------------------------
  // Destructive actions
  // ---------------------------------------------------------------------------

  /** `d` on a key or field asks first: nothing is sent, and the state asked from is remembered. */
  lemma DeleteAsksFirst(m: Model)
    requires m.state == Browser || m.state == FieldSelect
    requires (if m.state == Browser then Selected(m.keys) else Selected(m.fields)).Some?
    ensures var s := Update(m, Key("d"));
      && s.effect == Widget
      && s.model.state == Confirmation && s.model.previous == m.state
      && (m.state == Browser ==> s.model.selectedOp == Del && s.model.activeKey == Selected(m.keys).value.title)
      && (m.state == FieldSelect ==>
            s.model.selectedOp == (if m.selectedOp == ExploreList then LRem else HDel)
            && s.model.activeField == Selected(m.fields).value.title)
  {
  }

  /**
    Confirming sends the destructive command for the state it was asked from
    and enters Loading without touching the remembered state.
   */
  lemma ConfirmYesPreservesHistory(m: Model, k: Bytes)
    requires m.state == Confirmation && (k == "y" || k == "Y")
    ensures m.previous == Browser ==>
      Update(m, Key(k)) == Step(m.(selectedOp := Del, state := Loading), Send(Command("DEL", [m.activeKey])))
    ensures m.previous == FieldSelect && m.selectedOp == HDel ==>
      Update(m, Key(k)) == Step(m.(state := Loading), Send(Command("HDEL", [m.activeKey, m.activeField])))
    ensures m.previous == FieldSelect && m.selectedOp == LRem ==>
      Update(m, Key(k)) == Step(m.(state := Loading), Send(Command("LREM", [m.activeKey, "1", m.activeField])))
    ensures Update(m, Key(k)).model.previous == m.previous
  {
  }

  /** Declining goes back to the remembered state and sends nothing. */
  lemma ConfirmNoReturns(m: Model, k: Bytes)
    requires m.state == Confirmation && k in {"esc", "n", "N"}
    ensures Update(m, Key(k)) == Step(m.(state := m.previous), NoEffect)
  {
  }

  // ---------------------------------------------------------------------------
  // Entering values
  // ---------------------------------------------------------------------------

  /**
    Confirming the value clears the input, stores it as the active value and
    sends the command of the operation in progress.
   */
  lemma InputValueSubmit(m: Model)
    requires m.state == InputValue && m.selectedOp in {Set, HSet, LSet, RPush}
    ensures var s := Update(m, Key("enter"));
      && s.model.input == [] && s.model.activeValue == m.input
      && s.model.state == Loading && s.model.previous == InputValue
      && (m.selectedOp == Set ==> s.effect == Send(Command("SET", [m.activeKey, m.input])))
      && (m.selectedOp == HSet ==> s.effect == Send(Command("HSET", [m.activeKey, m.activeField, m.input])))
      && (m.selectedOp == LSet ==> s.effect == Send(Command("LSET", [m.activeKey, Itoa(m.activeIndex), m.input])))
      && (m.selectedOp == RPush ==> s.effect == Send(Command("RPUSH", [m.activeKey, m.input])))
  {
  }

  /** Confirming the key stores it and goes on as the operation needs. */
  lemma InputKeySubmit(m: Model)
    requires m.state == InputKey
    ensures var s := Update(m, Key("enter"));
      && s.model.input == [] && s.model.activeKey == m.input
      && (m.selectedOp == Get ==> s.effect == Send(Command("GET", [m.input])) && s.model.state == Loading)
      && (m.selectedOp in {Set, RPush} ==> s == Step(m.(activeKey := m.input, input := [], state := InputValue), NoEffect))
      && (m.selectedOp == HSet ==> s == Step(m.(activeKey := m.input, input := [], state := InputField), NoEffect))
      && (m.selectedOp == Delete ==> s.effect == Send(Command("DEL", [m.input])) && s.model.state == Loading)
  {
  }

  /** `e` on an output edits it as the value of the matching write operation. */
  lemma OutputEdit(m: Model)
    requires m.state == Output
    ensures var s := Update(m, Key("e"));
      && s.effect == NoEffect && s.model.state == InputValue && s.model.input == m.output
      && (m.selectedOp == Get ==> s.model.selectedOp == Set)
      && (m.selectedOp == HGet ==> s.model.selectedOp == HSet)
      && (m.selectedOp == ExploreList ==> s.model.selectedOp == LSet)
  {
  }

  /** The menu starts an operation: key input for the data operations, a scan for EXPLORE. */
  lemma MenuSelect(m: Model)
    requires m.state == Menu && Selected(m.menu).Some?
    ensures var op := OpOf(Selected(m.menu).value.title);
      var s := Update(m, Key("enter"));
      && (op in {Set, Get, HSet, HGet, Delete, RPush} ==>
            s == Step(m.(selectedOp := op, previous := Menu, state := InputKey), Widget))
      && (op == Explore ==> s == Step(m.(selectedOp := op, previous := Menu, state := Loading), ScanKeys))
  {
  }

  // ---------------------------------------------------------------------------
  // Decoded replies as messages
  // ---------------------------------------------------------------------------

  /**
    A connection closed before a reply is a transport error, which sends the
    session to reconnect; a reply cut short inside a bulk string is an
    ordinary error, shown.
   */
  lemma ClosedStreamReconnects(m: Model, s: Bytes, pos: nat)
    requires pos <= |s|
    ensures Parse(s, pos).result == Err(Io(Eof)) ==>
      Update(m, ReplyMessage(Parse(s, pos).result).value) == SwitchToLoading(m, Connect(m.address))
    ensures Parse(s, pos).result == Err(Io(UnexpectedEof)) ==>
      ReplyMessage(Parse(s, pos).result) == Some(RedisResult(NoPayload, Some(Failure("unexpected EOF"))))
  {
  }
}
