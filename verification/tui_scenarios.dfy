/**
  Sessions, message by message. From the session cmd/redis-tui/main.go starts:
  moving the menu cursor to EXPLORE, and the dials that can never succeed.
  From any session in the menu: browsing to a hash field and reading it,
  deleting a key from the browser, and deleting a field from a hash's field
  list.
 */
module TuiScenarios {
  import opened GoText
  import opened Resp
  import opened Tui
  import opened TuiProps

  /** The effect of each message of `msgs` in turn. */
  function Effects(m: Model, msgs: seq<Msg>): seq<Effect>
    decreases |msgs|
  {
    if msgs == [] then [] else [Update(m, msgs[0]).effect] + Effects(Update(m, msgs[0]).model, msgs[1..])
  }

  /**
    When `ms` lists the session after each message, `Run` ends in the last of
    them and the effects are the steps' effects, in order.
   */
  lemma {:induction false} RunThrough(msgs: seq<Msg>, ms: seq<Model>)
    requires |ms| == |msgs| + 1
    requires forall i :: 0 <= i < |msgs| ==> Update(ms[i], msgs[i]).model == ms[i + 1]
    ensures Run(ms[0], msgs) == ms[|msgs|]
    ensures |Effects(ms[0], msgs)| == |msgs|
    ensures forall i :: 0 <= i < |msgs| ==> Effects(ms[0], msgs)[i] == Update(ms[i], msgs[i]).effect
  {
    if msgs != [] {
      RunThrough(msgs[1..], ms[1..]);
    }
  }

  /** The menu cmd/redis-tui/main.go builds. */
  function MenuItems(): seq<ListEntry> {
    [ ListEntry(0, "SET", "Set a key-value pair"),
      ListEntry(0, "GET", "Get the value of a key"),
      ListEntry(0, "HSET", "Set a hash field"),
      ListEntry(0, "HGET", "Get the value of a hash field"),
      ListEntry(0, "EXPLORE", "Browse keys and values") ]
  }

  /** The session cmd/redis-tui/main.go starts: the menu, connected, every other field at its zero value. */
  function Start(): Model {
    Model(Menu, Menu, ListView(MenuItems(), 0), ListView([], 0), ListView([], 0), [], [], [], [], 0, [], Named([]), [])
  }

  /** Running `a` and then `b` is running `a + b`. */
  lemma {:induction false} RunAppend(m: Model, a: seq<Msg>, b: seq<Msg>)
    ensures Run(m, a + b) == Run(Run(m, a), b)
    ensures Effects(m, a + b) == Effects(m, a) + Effects(Run(m, a), b)
    decreases |a|
  {
    if a == [] {
      assert a + b == b;
    } else {
      assert (a + b)[0] == a[0] && (a + b)[1..] == a[1..] + b;
      RunAppend(Update(m, a[0]).model, a[1..], b);
    }
  }

  /** Whatever the messages, the address stays as it was, and every dial asked for is of it. */
  lemma {:induction false} RunKeepsAddress(m: Model, msgs: seq<Msg>)
    ensures Run(m, msgs).address == m.address
    ensures forall e :: e in Effects(m, msgs) && e.Connect? ==> e.address == m.address
    decreases |msgs|
  {
    if msgs != [] {
      AddressKept(m, msgs[0]);
      RunKeepsAddress(Update(m, msgs[0]).model, msgs[1..]);
    }
  }

  /**
    The session cmd/redis-tui/main.go starts never has its `RedisAddress` set,
    so every dial it asks for, at launch (`Init`) and after a transport error
    alike, is of the empty address and fails, whatever the network does: the
    connection it was started with is never replaced.
   */
  lemma StartNeverReconnects(msgs: seq<Msg>, reachable: bool)
    ensures DialOutcome(Init(Start()).address, reachable) == ConnectionFailed
    ensures Run(Start(), msgs).address == []
    ensures forall e :: e in Effects(Start(), msgs) && e.Connect? ==> DialOutcome(e.address, reachable) == ConnectionFailed
  {
    RunKeepsAddress(Start(), msgs);
  }

  /** From the start, four steps down put the menu cursor on EXPLORE. */
  lemma DownToExplore()
    ensures var m := Run(Start(), [Key("down"), Key("down"), Key("down"), Key("down")]);
      m == Start().(menu := ListView(MenuItems(), 4)) && Selected(m.menu).value.title == "EXPLORE"
  {
    var m0 := Start();
    var ms := [m0, m0.(menu := ListView(MenuItems(), 1)), m0.(menu := ListView(MenuItems(), 2)),
               m0.(menu := ListView(MenuItems(), 3)), m0.(menu := ListView(MenuItems(), 4))];
    RunThrough([Key("down"), Key("down"), Key("down"), Key("down")], ms);
  }

  // ---------------------------------------------------------------------------
  // Single steps
  // ---------------------------------------------------------------------------

  /** The scan's keys, for EXPLORE, fill the browser. */
  lemma KeysListed(m: Model, keys: seq<ListEntry>)
    requires m.selectedOp == Explore
    ensures Update(m, RedisResult(KeyList(keys), None)) == Step(m.(keys := SetItems(m.keys, keys), state := Browser), Widget)
  {
  }

  /** `enter` on a key probes its type. */
  lemma KeyProbed(m: Model)
    requires m.state == Browser && Selected(m.keys).Some?
    ensures var k := Selected(m.keys).value.title;
      Update(m, Key("enter")) == SwitchToLoading(m.(activeKey := k, selectedOp := CheckType), Send(Command("TYPE", [k])))
  {
  }

  /** A hash, while waiting for the probe, is read with HKEYS. */
  lemma HashProbed(m: Model)
    requires m.selectedOp == CheckType && m.state == Loading
    ensures Update(m, RedisResult(Reply(Str("hash")), None)) == Step(m.(selectedOp := HKeys), Send(Command("HKEYS", [m.activeKey])))
  {
  }

  /** `enter` on a hash field reads it with HGET. */
  lemma FieldRead(m: Model)
    requires m.state == FieldSelect && m.selectedOp in {HGet, HKeys, Explore} && Selected(m.fields).Some?
    ensures var e := Selected(m.fields).value;
      Update(m, Key("enter"))
        == SwitchToLoading(m.(activeField := e.title, activeIndex := e.index, selectedOp := HGet),
                           Send(Command("HGET", [m.activeKey, e.title])))
  {
  }

  /** A string read for GET or HGET is shown. */
  lemma ValueShown(m: Model, v: Bytes)
    requires m.selectedOp == Get || m.selectedOp == HGet
    requires m.state == Loading
    ensures Update(m, RedisResult(Reply(Str(v)), None)) == Step(m.(output := v, state := Output), NoEffect)
  {
  }

  /** `esc` on the output goes back to the remembered state, clearing the input and the output. */
  lemma OutputClosed(m: Model)
    requires m.state == Output
    ensures Update(m, Key("esc")) == Step(m.(input := [], state := m.previous, output := []), NoEffect)
  {
  }

  /** `d` on a key asks for confirmation, remembering the browser. */
  lemma KeyDeleteAsked(m: Model)
    requires m.state == Browser && Selected(m.keys).Some?
    ensures Update(m, Key("d"))
      == Step(m.(activeKey := Selected(m.keys).value.title, previous := Browser, state := Confirmation, selectedOp := Del), Widget)
  {
  }

  /** Whatever a DEL's reply, the keys are scanned again, and the deleted key is named. */
  lemma DeletedRescans(m: Model, reply: Payload)
    requires m.selectedOp == Del
    ensures Update(m, RedisResult(reply, None))
      == SwitchToLoading(m.(output := "Deleted Key: " + m.activeKey, selectedOp := Explore), ScanKeys)
  {
  }

  // ---------------------------------------------------------------------------
  // Sessions
  // ---------------------------------------------------------------------------

  /** Browsing: EXPLORE, the scan's keys, and the first key. */
  function BrowseMsgs(keys: seq<ListEntry>): seq<Msg> {
    [Key("enter"), RedisResult(KeyList(keys), None), Key("enter")]
  }

  /** Listing a hash: its TYPE, then its HKEYS. */
  function ListMsgs(fields: seq<Bytes>): seq<Msg> {
    [RedisResult(Reply(Str("hash")), None), RedisResult(Reply(Arr(Strs(fields))), None)]
  }

  /** Reading a field: the first one, then its HGET. */
  function ValueMsgs(value: Bytes): seq<Msg> {
    [Key("enter"), RedisResult(Reply(Str(value)), None)]
  }

  /** From the menu to probing the first key the scan lists, remembering the browser. */
  lemma BrowseToProbe(m: Model, keys: seq<ListEntry>)
    requires m.state == Menu && Selected(m.menu).Some? && Selected(m.menu).value.title == "EXPLORE"
    requires m.keys.cursor == 0 < |keys|
    ensures Run(m, BrowseMsgs(keys))
      == m.(keys := SetItems(m.keys, keys), activeKey := keys[0].title, selectedOp := CheckType,
            previous := Browser, state := Loading)
    ensures Effects(m, BrowseMsgs(keys)) == [ScanKeys, Widget, Send(Command("TYPE", [keys[0].title]))]
  {
    var msgs := BrowseMsgs(keys);
    var m1 := m.(selectedOp := Explore, previous := Menu, state := Loading);
    MenuSelect(m);
    var m2 := m1.(keys := SetItems(m1.keys, keys), state := Browser);
    KeysListed(m1, keys);
    var m3 := m2.(activeKey := keys[0].title, selectedOp := CheckType, previous := Browser, state := Loading);
    KeyProbed(m2);
    RunThrough(msgs, [m, m1, m2, m3]);
  }

  /** From a probe that reports a hash to the list of its fields. */
  lemma ProbeToFields(m: Model, fields: seq<Bytes>)
    requires m.state == Loading && m.selectedOp == CheckType
    ensures Run(m, ListMsgs(fields))
      == m.(selectedOp := HKeys, fields := SetItems(m.fields, HashFieldEntries(Strs(fields))), state := FieldSelect)
    ensures Effects(m, ListMsgs(fields)) == [Send(Command("HKEYS", [m.activeKey])), Widget]
  {
    var m1 := m.(selectedOp := HKeys);
    HashProbed(m);
    HashReply(m1, Strs(fields));
    var m2 := m1.(fields := SetItems(m1.fields, HashFieldEntries(Strs(fields))), state := FieldSelect);
    RunThrough(ListMsgs(fields), [m, m1, m2]);
  }

  /** From a field list to the first field's value shown, remembering the field list. */
  lemma FieldToValue(m: Model, value: Bytes)
    requires m.state == FieldSelect && m.selectedOp == HKeys && Selected(m.fields).Some?
    ensures var e := Selected(m.fields).value;
      Run(m, ValueMsgs(value))
        == m.(activeField := e.title, activeIndex := e.index, selectedOp := HGet, previous := FieldSelect,
              output := value, state := Output)
    ensures Effects(m, ValueMsgs(value))
      == [Send(Command("HGET", [m.activeKey, Selected(m.fields).value.title])), NoEffect]
  {
    var e := Selected(m.fields).value;
    var m1 := m.(activeField := e.title, activeIndex := e.index, selectedOp := HGet, previous := FieldSelect,
                 state := Loading);
    FieldRead(m);
    ValueShown(m1, value);
    RunThrough(ValueMsgs(value), [m, m1, m1.(output := value, state := Output)]);
  }

  /** A listing of string fields starts with the first field. */
  lemma FirstHashField(fields: seq<Bytes>)
    requires |fields| > 0
    ensures |HashFieldEntries(Strs(fields))| > 0 && HashFieldEntries(Strs(fields))[0].title == fields[0]
  {
    assert Strs(fields)[0] == Str(fields[0]);
  }

  /** From the menu to the field list of the first key the scan lists, a hash. */
  lemma BrowseToFields(m: Model, keys: seq<ListEntry>, fields: seq<Bytes>)
    requires m.state == Menu && Selected(m.menu).Some? && Selected(m.menu).value.title == "EXPLORE"
    requires m.keys.cursor == 0 < |keys|
    ensures var listed := Run(m, BrowseMsgs(keys) + ListMsgs(fields));
      && listed.state == FieldSelect && listed.selectedOp == HKeys && listed.activeKey == keys[0].title
      && listed.fields == SetItems(m.fields, HashFieldEntries(Strs(fields)))
    ensures Effects(m, BrowseMsgs(keys) + ListMsgs(fields))
      == [ScanKeys, Widget, Send(Command("TYPE", [keys[0].title])), Send(Command("HKEYS", [keys[0].title])), Widget]
  {
    BrowseToProbe(m, keys);
    ProbeToFields(Run(m, BrowseMsgs(keys)), fields);
    RunAppend(m, BrowseMsgs(keys), ListMsgs(fields));
  }

  /** The messages of exploring a hash field from the menu. */
  function ExploreMsgs(keys: seq<ListEntry>, fields: seq<Bytes>, value: Bytes): seq<Msg> {
    BrowseMsgs(keys) + ListMsgs(fields) + ValueMsgs(value)
  }

  /**
    Exploring a hash key from the menu: the session scans, probes the chosen
    key's type, lists the hash's fields, reads the chosen field and shows its
    value, each command sent on entering Loading; `esc` then goes back to the
    field list.
   */
  lemma ExploreHashField(m: Model, keys: seq<ListEntry>, fields: seq<Bytes>, value: Bytes)
    requires m.state == Menu && Selected(m.menu).Some? && Selected(m.menu).value.title == "EXPLORE"
    requires m.keys.cursor == 0 < |keys| && m.fields.cursor == 0 < |fields|
    ensures var k, f := keys[0].title, fields[0];
      Effects(m, ExploreMsgs(keys, fields, value)) ==
        [ ScanKeys, Widget, Send(Command("TYPE", [k])), Send(Command("HKEYS", [k])), Widget,
          Send(Command("HGET", [k, f])), NoEffect ]
    ensures var shown := Run(m, ExploreMsgs(keys, fields, value));
      && shown.state == Output && shown.output == value && shown.previous == FieldSelect
      && shown.activeKey == keys[0].title && shown.activeField == fields[0]
      && shown.fields.items == HashFieldEntries(Strs(fields))
      && Update(shown, Key("esc")).model.state == FieldSelect
  {
    BrowseToFields(m, keys, fields);
    var listed := Run(m, BrowseMsgs(keys) + ListMsgs(fields));
    FirstHashField(fields);
    FieldToValue(listed, value);
    RunAppend(m, BrowseMsgs(keys) + ListMsgs(fields), ValueMsgs(value));
    OutputClosed(Run(listed, ValueMsgs(value)));
  }

  /** Asking to delete and confirming: `d`, then `y`. */
  function ConfirmMsgs(): seq<Msg> {
    [Key("d"), Key("y")]
  }

  /** A deletion's reply, then the reply of the listing that follows it. */
  function RefreshMsgs(reply: Payload, listing: Payload): seq<Msg> {
    [RedisResult(reply, None), RedisResult(listing, None)]
  }

  /** `d` and `y` on a key send DEL for it, remembering the browser. */
  lemma KeyDeleteConfirmed(m: Model)
    requires m.state == Browser && Selected(m.keys).Some?
    ensures var k := Selected(m.keys).value.title;
      && Run(m, ConfirmMsgs()) == m.(activeKey := k, previous := Browser, state := Loading, selectedOp := Del)
      && Effects(m, ConfirmMsgs()) == [Widget, Send(Command("DEL", [k]))]
  {
    var k := Selected(m.keys).value.title;
    var m1 := m.(activeKey := k, previous := Browser, state := Confirmation, selectedOp := Del);
    KeyDeleteAsked(m);
    ConfirmYesPreservesHistory(m1, "y");
    RunThrough(ConfirmMsgs(), [m, m1, m1.(state := Loading)]);
  }

  /** After a DEL, the keys are scanned again and fill the browser. */
  lemma KeysRefreshed(m: Model, reply: Payload, keys: seq<ListEntry>)
    requires m.state == Loading && m.selectedOp == Del
    ensures Run(m, RefreshMsgs(reply, KeyList(keys)))
      == m.(output := "Deleted Key: " + m.activeKey, selectedOp := Explore, keys := SetItems(m.keys, keys), state := Browser)
    ensures Effects(m, RefreshMsgs(reply, KeyList(keys))) == [ScanKeys, Widget]
  {
    var m1 := m.(output := "Deleted Key: " + m.activeKey, selectedOp := Explore);
    DeletedRescans(m, reply);
    KeysListed(m1, keys);
    RunThrough(RefreshMsgs(reply, KeyList(keys)), [m, m1, m1.(keys := SetItems(m1.keys, keys), state := Browser)]);
  }

  /**
    Deleting a key from the browser: it asks first, sends DEL only on `y`,
    then rescans whatever the reply, and lists the new keys in the browser,
    with the deleted key named in the output.
   */
  lemma DeleteKey(m: Model, reply: Payload, keys: seq<ListEntry>)
    requires m.state == Browser && Selected(m.keys).Some?
    ensures var k := Selected(m.keys).value.title;
      Effects(m, ConfirmMsgs() + RefreshMsgs(reply, KeyList(keys)))
        == [Widget, Send(Command("DEL", [k])), ScanKeys, Widget]
    ensures var k, done := Selected(m.keys).value.title, Run(m, ConfirmMsgs() + RefreshMsgs(reply, KeyList(keys)));
      && done.state == Browser && done.keys.items == keys
      && done.output == "Deleted Key: " + k && done.previous == Browser
  {
    KeyDeleteConfirmed(m);
    KeysRefreshed(Run(m, ConfirmMsgs()), reply, keys);
    RunAppend(m, ConfirmMsgs(), RefreshMsgs(reply, KeyList(keys)));
  }

  /** `d` on a field asks for confirmation, remembering the field list. */
  lemma FieldDeleteAsked(m: Model)
    requires m.state == FieldSelect && Selected(m.fields).Some?
    ensures Update(m, Key("d"))
      == Step(m.(activeField := Selected(m.fields).value.title, previous := FieldSelect, state := Confirmation,
                 selectedOp := if m.selectedOp == ExploreList then LRem else HDel), Widget)
  {
  }

  /** Whatever an HDEL's reply, the hash's fields are listed again. */
  lemma FieldDeletedRelists(m: Model, reply: Payload)
    requires m.selectedOp == HDel && m.state == Loading
    ensures Update(m, RedisResult(reply, None))
      == Step(m.(output := "Deleted Hash Key: " + m.activeKey, selectedOp := HKeys), Send(Command("HKEYS", [m.activeKey])))
  {
  }

  /** `esc` on a field list goes back to the remembered state. */
  lemma FieldListClosed(m: Model)
    requires m.state == FieldSelect
    ensures Update(m, Key("esc")) == Step(m.(input := [], state := m.previous, output := []), NoEffect)
  {
  }

  /** `d` and `y` on a hash field send HDEL for it, remembering the field list. */
  lemma FieldDeleteConfirmed(m: Model)
    requires m.state == FieldSelect && m.selectedOp == HKeys && Selected(m.fields).Some?
    ensures var f := Selected(m.fields).value.title;
      && Run(m, ConfirmMsgs()) == m.(activeField := f, previous := FieldSelect, state := Loading, selectedOp := HDel)
      && Effects(m, ConfirmMsgs()) == [Widget, Send(Command("HDEL", [m.activeKey, f]))]
  {
    var f := Selected(m.fields).value.title;
    var m1 := m.(activeField := f, previous := FieldSelect, state := Confirmation, selectedOp := HDel);
    FieldDeleteAsked(m);
    ConfirmYesPreservesHistory(m1, "y");
    RunThrough(ConfirmMsgs(), [m, m1, m1.(state := Loading)]);
  }

  /** After an HDEL, the hash's fields are listed again. */
  lemma FieldsRefreshed(m: Model, reply: Payload, xs: seq<Value>)
    requires m.state == Loading && m.selectedOp == HDel
    ensures Run(m, RefreshMsgs(reply, Reply(Arr(xs))))
      == m.(output := "Deleted Hash Key: " + m.activeKey, selectedOp := HKeys,
            fields := SetItems(m.fields, HashFieldEntries(xs)), state := FieldSelect)
    ensures Effects(m, RefreshMsgs(reply, Reply(Arr(xs)))) == [Send(Command("HKEYS", [m.activeKey])), Widget]
  {
    var m1 := m.(output := "Deleted Hash Key: " + m.activeKey, selectedOp := HKeys);
    FieldDeletedRelists(m, reply);
    HashReply(m1, xs);
    RunThrough(RefreshMsgs(reply, Reply(Arr(xs))),
               [m, m1, m1.(fields := SetItems(m1.fields, HashFieldEntries(xs)), state := FieldSelect)]);
  }

  /**
    Deleting a hash field: HDEL on `y`, then the field list again, now with
    FieldSelect as the state to return to, so that `esc` on it stays in
    FieldSelect instead of going back to where the list was opened from.
   */
  lemma DeleteHashField(m: Model, reply: Payload, xs: seq<Value>)
    requires m.state == FieldSelect && m.selectedOp == HKeys && Selected(m.fields).Some?
    ensures var f := Selected(m.fields).value.title;
      Effects(m, ConfirmMsgs() + RefreshMsgs(reply, Reply(Arr(xs))))
        == [Widget, Send(Command("HDEL", [m.activeKey, f])), Send(Command("HKEYS", [m.activeKey])), Widget]
    ensures var done := Run(m, ConfirmMsgs() + RefreshMsgs(reply, Reply(Arr(xs))));
      && done.state == FieldSelect && done.previous == FieldSelect && done.fields.items == HashFieldEntries(xs)
      && Update(done, Key("esc")).model.state == FieldSelect
  {
    FieldDeleteConfirmed(m);
    var sent := Run(m, ConfirmMsgs());
    FieldsRefreshed(sent, reply, xs);
    RunAppend(m, ConfirmMsgs(), RefreshMsgs(reply, Reply(Arr(xs))));
    FieldListClosed(Run(sent, RefreshMsgs(reply, Reply(Arr(xs)))));
  }
}
