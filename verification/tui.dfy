/**
  The session controller of internal/tui/model.go: `Model.Update` takes the
  session by value together with one event and returns the updated session and
  at most one follow-up task. Here that is the pure function `Update` from a
  `Model` and a `Msg` to a `Step`.

  The commands (`tea.Cmd`) the Go code hands to the runtime (dial, wait two seconds, write a
  command and read its reply, scan the key space) are not run; they are the
  `Effect` of a step, and what they eventually deliver comes back as a later
  `Msg`. The widgets (menu, field and key lists, text input) are reduced to
  what the controller reads and writes: a list's items and cursor, and the
  text of the input line.

  `Update` works in two phases, as the Go code does: first by the kind of the
  message (quit key, timer, connection result, command result), then, for
  everything that was not answered in the first phase, by the current state.
 */
module Tui {
  import opened GoText
  import opened Stream
  import opened Resp

  datatype AppState =
    | Menu
    | InputKey
    | InputField
    | FieldSelect
    | InputValue
    | Output
    | Browser
    | Loading
    | Confirmation

  /** `ListItem`: one entry of a list, with the reply position it came from. */
  datatype ListEntry = ListEntry(index: int, title: Bytes, desc: Bytes)

  /** A list widget as the controller sees it: the items and the cursor. */
  datatype ListView = ListView(items: seq<ListEntry>, cursor: nat)

  /** `SelectedItem()`: the entry under the cursor, if the cursor is on one. */
  function Selected(l: ListView): Option<ListEntry> {
    if l.cursor < |l.items| then Some(l.items[l.cursor]) else None
  }

  /** `SetItems`: new items, the cursor stays where it was. */
  function SetItems(l: ListView, items: seq<ListEntry>): ListView {
    l.(items := items)
  }

  /**
    The session (`Model`), without the connection handle and the widget
    styling. `address` is `RedisAddress`, the address every reconnection dials.
   */
  datatype Model = Model(
    state: AppState,
    previous: AppState,
    menu: ListView,
    fields: ListView,
    keys: ListView,
    input: Bytes,
    output: Bytes,
    activeKey: Bytes,
    activeField: Bytes,
    activeIndex: int,
    activeValue: Bytes,
    selectedOp: Op,
    address: Bytes)

  /**
    Why a command failed: a transport failure (`io.EOF` or a `net.Error`), which
    leads to reconnecting, or any other error, shown with its text.
   */
  datatype ResultError = Transport | Failure(text: Bytes)

  /**
    The `Result` of a `RedisResultMsg`: nothing (it came with an error), a
    decoded reply, or the keys a scan collected.
   */
  datatype Payload = NoPayload | Reply(value: Value) | KeyList(entries: seq<ListEntry>)

  datatype Msg =
    | Key(key: Bytes)                                      // tea.KeyMsg, by its String()
    | Tick                                                 // TickMsg: the retry delay is over
    | ConnectionOk                                         // RedisConnectionMsg without error
    | ConnectionFailed                                     // RedisConnectionMsg with an error
    | RedisResult(result: Payload, error: Option<ResultError>)
    | Other                                                // a resize or any other message

  /** The follow-up task `Update` returns. */
  datatype Effect =
    | NoEffect
    | Quit
    | Connect(address: Bytes)  // connectToRedis
    | Wait                     // waitForNextConnection
    | Send(cmd: Command)       // sendRedisCmd
    | ScanKeys                 // scanRedisKeys
    | Widget                   // whatever the widget that got the message returns

  datatype Step = Step(model: Model, effect: Effect)

  const Unexpected: Bytes := "Unexpected response"

  /**
    The operation tag (`SelectedOp`). The Go field is a string; the tags the
    controller compares against are constructors here, and any other string
    (the zero value "" included) is kept as it is in `Named`.
   */
  datatype Op =
    | Get | Set | HSet | HGet | Delete | RPush | Explore
    | HKeys | LRange | SMembers | ZRange | CheckType | LSet
    | Del | HDel | LRem | ExploreList
    | Named(name: Bytes)

  /** The string a tag stands for. */
  function OpName(op: Op): Bytes {
    match op
    case Get => "GET"
    case Set => "SET"
    case HSet => "HSET"
    case HGet => "HGET"
    case Delete => "DELETE"
    case RPush => "RPUSH"
    case Explore => "EXPLORE"
    case HKeys => "HKEYS"
    case LRange => "LRANGE"
    case SMembers => "SMEMBERS"
    case ZRange => "ZRANGE"
    case CheckType => "CHECK_TYPE"
    case LSet => "LSET"
    case Del => "DEL"
    case HDel => "HDEL"
    case LRem => "LREM"
    case ExploreList => "EXPLORE_LIST"
    case Named(s) => s
  }

  /** The strings that have a tag of their own. */
  function OpNames(): set<Bytes> {
    {"GET", "SET", "HSET", "HGET", "DELETE", "RPUSH", "EXPLORE", "HKEYS", "LRANGE",
     "SMEMBERS", "ZRANGE", "CHECK_TYPE", "LSET", "DEL", "HDEL", "LREM", "EXPLORE_LIST"}
  }

  /** The tag a string (a menu item's title) stands for. */
  function OpOf(s: Bytes): Op {
    if s == "GET" then Get
    else if s == "SET" then Set
    else if s == "HSET" then HSet
    else if s == "HGET" then HGet
    else if s == "DELETE" then Delete
    else if s == "RPUSH" then RPush
    else if s == "EXPLORE" then Explore
    else if s == "HKEYS" then HKeys
    else if s == "LRANGE" then LRange
    else if s == "SMEMBERS" then SMembers
    else if s == "ZRANGE" then ZRange
    else if s == "CHECK_TYPE" then CheckType
    else if s == "LSET" then LSet
    else if s == "DEL" then Del
    else if s == "HDEL" then HDel
    else if s == "LREM" then LRem
    else if s == "EXPLORE_LIST" then ExploreList
    else Named(s)
  }

  // ---------------------------------------------------------------------------
  // Widgets
  // ---------------------------------------------------------------------------

  /** The list widget's own key handling, as far as it is modelled: cursor up and down. */
  function Navigate(l: ListView, msg: Msg): ListView {
    if msg == Key("up") || msg == Key("k") then
      if l.cursor > 0 then l.(cursor := l.cursor - 1) else l
    else if msg == Key("down") || msg == Key("j") then
      if l.cursor + 1 < |l.items| then l.(cursor := l.cursor + 1) else l
    else l
  }

  /** The text input's own key handling: a typed byte is appended, backspace removes the last. */
  function Edit(input: Bytes, msg: Msg): Bytes {
    if msg.Key? && |msg.key| == 1 then input + msg.key
    else if msg == Key("backspace") && input != [] then input[..|input| - 1]
    else input
  }

  // ---------------------------------------------------------------------------
  // Building list entries from replies
  // ---------------------------------------------------------------------------

  /** HKEYS: one entry per string of the reply, in order, described as a hash field. */
  function HashFieldEntries(xs: seq<Value>): seq<ListEntry> {
    if xs == [] then []
    else
      var rest := HashFieldEntries(xs[1..]);
      if xs[0].Str? then [ListEntry(0, xs[0].s, "Hash Field")] + rest else rest
  }

  /** LRANGE and SMEMBERS: one entry per string, carrying its position `i` in the reply. */
  function IndexedEntries(xs: seq<Value>, i: nat): seq<ListEntry>
    requires i <= |xs|
    decreases |xs| - i
  {
    if i == |xs| then []
    else
      var rest := IndexedEntries(xs, i + 1);
      if xs[i].Str? then [ListEntry(i, xs[i].s, "Index: " + Itoa(i))] + rest else rest
  }

  /** The score after the member at `i - 1`: the next element if it is a string, else "unknown". */
  function ScoreAt(xs: seq<Value>, i: nat): Bytes {
    if i < |xs| && xs[i].Str? then xs[i].s else "unknown"
  }

  /** The entry for the member at `p`: the member as title, the score after it as description. */
  function ScoredEntry(xs: seq<Value>, p: nat): ListEntry
    requires p < |xs| && xs[p].Str?
  {
    ListEntry(0, xs[p].s, "Score: " + ScoreAt(xs, p + 1))
  }

  /**
    ZRANGE WITHSCORES: members and scores alternate; one entry per member that
    is a string, at even positions from `i` on.
   */
  function ScoredEntries(xs: seq<Value>, i: nat): seq<ListEntry>
    decreases |xs| - i
  {
    if i >= |xs| then []
    else
      var rest := ScoredEntries(xs, i + 2);
      if xs[i].Str? then [ScoredEntry(xs, i)] + rest else rest
  }

  // ---------------------------------------------------------------------------
  // The transition function
  // ---------------------------------------------------------------------------

  /**
    `switchToLoadingAndExecute`: remember the current state unless it is
    already Loading, enter Loading, and hand over the follow-up `e`.
   */
  function SwitchToLoading(m: Model, e: Effect): Step {
    var m1 := if m.state != Loading then m.(previous := m.state) else m;
    Step(m1.(state := Loading), e)
  }

  /** `Model.Init`: dial the session's address (the text input's cursor blink is left out). */
  function Init(m: Model): Effect {
    Connect(m.address)
  }

  /**
    What `connectToRedis(address)` delivers. `net.Dial` refuses an empty
    address ("missing address") before it reaches the network; for any other
    address the outcome depends on the network, given here as `reachable`.
   */
  function DialOutcome(address: Bytes, reachable: bool): Msg {
    if address != [] && reachable then ConnectionOk else ConnectionFailed
  }

  /** `Model.Update`. */
  function Update(m: Model, msg: Msg): Step {
    match msg
    case Key(k) => if k == "ctrl+c" then Step(m, Quit) else Dispatch(m, msg)
    case Tick => Step(m, Connect(m.address))
    case ConnectionFailed => Step(m, Wait)
    case ConnectionOk => Dispatch(m.(state := m.previous), msg)
    case RedisResult(p, e) => OnResult(m, p, e, msg)
    case Other => Dispatch(m, msg)
  }

  /** The first phase for a command result: an answer, or the session to go on with. */
  datatype Flow = Done(step: Step) | Continue(model: Model)

  function OnResult(m: Model, p: Payload, e: Option<ResultError>, msg: Msg): Step {
    if e == Some(Transport) then
      // A connection error (server restart): reconnect, keeping the history.
      SwitchToLoading(m, Connect(m.address))
    else
      var m1 := if e.Some? then m.(output := e.value.text, state := Output) else m;
      match OnReply(m1, p)
      case Done(s) => s
      case Continue(m2) => Dispatch(m2, msg)
  }

  /** The reply table: what a result means for the operation that is in progress. */
  function OnReply(m: Model, p: Payload): Flow {
    match m.selectedOp
    case Get | HGet =>
      if p.Reply? && p.value.Str? then Continue(m.(output := p.value.s, state := Output))
      else Continue(m)
    case HKeys =>
      if p.Reply? && p.value.Arr? then
        Continue(m.(fields := SetItems(m.fields, HashFieldEntries(p.value.items)), state := FieldSelect))
      else Continue(m)
    case Explore =>
      if p.KeyList? then Continue(m.(keys := SetItems(m.keys, p.entries), state := Browser))
      else Continue(m)
    case LRange | SMembers =>
      if p.Reply? && p.value.Arr? then
        Continue(m.(fields := SetItems(m.fields, IndexedEntries(p.value.items, 0)),
                    selectedOp := ExploreList, state := FieldSelect))
      else Continue(m)
    case ZRange =>
      if p.Reply? && p.value.Arr? then
        Continue(m.(fields := SetItems(m.fields, ScoredEntries(p.value.items, 0)),
                    selectedOp := ExploreList, state := FieldSelect))
      else Continue(m)
    case CheckType =>
      if p.Reply? && p.value.Str? then ExploreType(m, p.value.s)
      else Continue(m.(output := Unexpected))
    case Set | LSet =>
      var text := if p.Reply? && p.value.Str? then p.value.s else Unexpected;
      Continue(m.(output := text, state := Output))
    case Del =>
      Done(SwitchToLoading(m.(output := "Deleted Key: " + m.activeKey, selectedOp := Explore), ScanKeys))
    case HDel =>
      var m1 := m.(output := "Deleted Hash Key: " + m.activeKey, selectedOp := HKeys);
      Done(SwitchToLoading(m1, Send(Command("HKEYS", [m.activeKey]))))
    case LRem =>
      var m1 := m.(output := "Removed element from list: " + m.activeKey, selectedOp := LRange);
      Done(SwitchToLoading(m1, Send(Command("LRANGE", [m.activeKey, "0", "-1"]))))
    case Delete | HSet | RPush =>
      // These expect an integer, which no decoded reply is.
      Continue(m.(output := Unexpected, state := Output))
    case _ => Continue(m)
  }

  /** The tag of the command that reads a key of the type a TYPE probe reported. */
  function ExploreOp(t: Bytes): Option<Op> {
    if t == "string" then Some(Get)
    else if t == "hash" then Some(HKeys)
    else if t == "list" then Some(LRange)
    else if t == "set" then Some(SMembers)
    else if t == "zset" then Some(ZRange)
    else None
  }

  /** That command's arguments: the key, and the whole range for lists and sorted sets. */
  function ExploreArgs(op: Op, key: Bytes): seq<Bytes> {
    if op == LRange then [key, "0", "-1"]
    else if op == ZRange then [key, "0", "-1", "WITHSCORES"]
    else [key]
  }

  function ExploreType(m: Model, t: Bytes): Flow {
    match ExploreOp(t)
    case Some(op) =>
      Done(SwitchToLoading(m.(selectedOp := op), Send(Command(OpName(op), ExploreArgs(op, m.activeKey)))))
    case None => Continue(m)
  }

  /** The second phase: what the current state does with the message. */
  function Dispatch(m: Model, msg: Msg): Step {
    match m.state
    case Menu => MenuStep(m, msg)
    case InputKey => InputKeyStep(m, msg)
    case InputField => InputFieldStep(m, msg)
    case InputValue => InputValueStep(m, msg)
    case FieldSelect => FieldSelectStep(m, msg)
    case Output => OutputStep(m, msg)
    case Browser => BrowserStep(m, msg)
    case Loading => Step(m, NoEffect)
    case Confirmation => ConfirmationStep(m, msg)
  }

  /** `esc` in the input states: back to the menu, clearing the input and the output. */
  function Cancel(m: Model): Step {
    Step(m.(input := [], state := Menu, output := []), NoEffect)
  }

  function MenuStep(m: Model, msg: Msg): Step {
    var sel := Selected(m.menu);
    var m1 :=
      if msg == Key("enter") && sel.Some? then
        var op := OpOf(sel.value.title);
        if op in {Set, Get, HSet, HGet, Delete, RPush} then
          m.(selectedOp := op, previous := m.state, state := InputKey)
        else m.(selectedOp := op)
      else m;
    if msg == Key("enter") && sel.Some? && m1.selectedOp == Explore then
      SwitchToLoading(m1.(previous := m1.state), ScanKeys)
    else Step(m1.(menu := Navigate(m1.menu, msg)), Widget)
  }

  function InputKeyStep(m: Model, msg: Msg): Step {
    if msg == Key("esc") then Cancel(m)
    else if msg == Key("enter") then
      var m1 := m.(activeKey := m.input, input := []);
      match m1.selectedOp
      case Get => SwitchToLoading(m1, Send(Command(OpName(m1.selectedOp), [m1.activeKey])))
      case Set | RPush => Step(m1.(state := InputValue), NoEffect)
      case HSet => Step(m1.(state := InputField), NoEffect)
      case HGet => SwitchToLoading(m1, Send(Command("HKEYS", [m1.activeKey])))
      case Delete => SwitchToLoading(m1, Send(Command("DEL", [m1.activeKey])))
      case _ => Step(m1, NoEffect)
    else Step(m.(input := Edit(m.input, msg)), Widget)
  }

  function InputFieldStep(m: Model, msg: Msg): Step {
    if msg == Key("esc") then Cancel(m)
    else if msg == Key("enter") then
      var m1 := m.(activeField := m.input, input := []);
      if m1.selectedOp == HSet then Step(m1.(state := InputValue), NoEffect)
      else Step(m1, NoEffect)
    else Step(m.(input := Edit(m.input, msg)), Widget)
  }

  /** The command that stores the value just entered, for the operation in progress. */
  function StoreCommand(m: Model): Option<Command> {
    var name := OpName(m.selectedOp);
    match m.selectedOp
    case Set => Some(Command(name, [m.activeKey, m.activeValue]))
    case HSet => Some(Command(name, [m.activeKey, m.activeField, m.activeValue]))
    case LSet => Some(Command(name, [m.activeKey, Itoa(m.activeIndex), m.activeValue]))
    case RPush => Some(Command(name, [m.activeKey, m.activeValue]))
    case _ => None
  }

  function InputValueStep(m: Model, msg: Msg): Step {
    if msg == Key("esc") then Cancel(m)
    else
      var m1 := if msg == Key("enter") then m.(activeValue := m.input, input := []) else m;
      match if msg == Key("enter") then StoreCommand(m1) else None
      case Some(cmd) => SwitchToLoading(m1, Send(cmd))
      case None => Step(m1.(input := Edit(m1.input, msg)), Widget)
  }

  function FieldSelectStep(m: Model, msg: Msg): Step {
    var sel := Selected(m.fields);
    if msg == Key("esc") then
      Step(m.(input := [], state := m.previous, output := []), NoEffect)
    else
      var m1 :=
        if msg == Key("enter") && sel.Some? then
          var m2 := m.(activeField := sel.value.title, activeIndex := sel.value.index);
          if m2.selectedOp == ExploreList then m2.(output := m2.activeField, state := Output)
          else m2
        else if msg == Key("d") && sel.Some? then
          m.(activeField := sel.value.title, previous := m.state, state := Confirmation,
             selectedOp := if m.selectedOp == ExploreList then LRem else HDel)
        else m;
      if msg == Key("enter") && sel.Some? && m1.selectedOp in {HGet, HKeys, Explore} then
        SwitchToLoading(m1.(selectedOp := HGet), Send(Command("HGET", [m1.activeKey, m1.activeField])))
      else Step(m1.(fields := Navigate(m1.fields, msg)), Widget)
  }

  function OutputStep(m: Model, msg: Msg): Step {
    if msg == Key("esc") then
      Step(m.(input := [], state := m.previous, output := []), NoEffect)
    else if msg == Key("e") then
      var op :=
        match m.selectedOp
        case Get => Set
        case HGet => HSet
        case ExploreList => LSet
        case _ => m.selectedOp;
      Step(m.(input := m.output, selectedOp := op, state := InputValue), NoEffect)
    else Step(m, NoEffect)
  }

  function BrowserStep(m: Model, msg: Msg): Step {
    var sel := Selected(m.keys);
    if msg == Key("esc") then
      Step(m.(input := [], state := Menu, output := []), NoEffect)
    else if msg == Key("enter") && sel.Some? then
      var m1 := m.(activeKey := sel.value.title, selectedOp := CheckType);
      SwitchToLoading(m1, Send(Command("TYPE", [m1.activeKey])))
    else
      var m1 :=
        if msg == Key("d") && sel.Some? then
          m.(activeKey := sel.value.title, previous := m.state, state := Confirmation, selectedOp := Del)
        else m;
      Step(m1.(keys := Navigate(m1.keys, msg)), Widget)
  }

  /**
    The destructive command a confirmed deletion sends, for the state the
    confirmation was asked from.
   */
  function DeleteCommand(m: Model): Option<Command> {
    if m.previous == Browser then Some(Command("DEL", [m.activeKey]))
    else if m.previous == FieldSelect && m.selectedOp == HDel then
      Some(Command(OpName(HDel), [m.activeKey, m.activeField]))
    else if m.previous == FieldSelect && m.selectedOp == LRem then
      Some(Command(OpName(LRem), [m.activeKey, "1", m.activeField]))
    else None
  }

  function ConfirmationStep(m: Model, msg: Msg): Step {
    if msg == Key("esc") || msg == Key("n") || msg == Key("N") then
      Step(m.(state := m.previous), NoEffect)
    else
      var cmd := if msg == Key("y") || msg == Key("Y") then DeleteCommand(m) else None;
      match cmd
      case Some(c) =>
        // Entered by hand, so that the history before the deletion is kept.
        Step(m.(selectedOp := if m.previous == Browser then Del else m.selectedOp, state := Loading), Send(c))
      case None => Step(m.(keys := Navigate(m.keys, msg)), Widget)
  }

  // ---------------------------------------------------------------------------
  // Replies as messages
  // ---------------------------------------------------------------------------

  /** The text of a `*strconv.NumError` from `strconv.Atoi`. */
  function NumErrorText(e: NumError): Bytes {
    "strconv.Atoi: parsing \"" + e.input + "\": "
      + (if e.reason == InvalidSyntax then "invalid syntax" else "value out of range")
  }

  /**
    The message `sendRedisCmd` delivers once the command was written, for what
    `ReadResp` returned; `None` where `ReadResp` panics instead of returning.
    `io.EOF` is the transport error that leads to reconnecting;
    `io.ErrUnexpectedEOF` is neither `io.EOF` nor a `net.Error`, so it is shown.
   */
  function ReplyMessage(r: Result<Value, RespError>): Option<Msg> {
    match r
    case Ok(v) => Some(RedisResult(Reply(v), None))
    case Err(Io(Eof)) => Some(RedisResult(NoPayload, Some(Transport)))
    case Err(Io(UnexpectedEof)) => Some(RedisResult(NoPayload, Some(Failure("unexpected EOF"))))
    case Err(BadNumber(e)) => Some(RedisResult(NoPayload, Some(Failure(NumErrorText(e)))))
    case Err(NegativeLength(_)) => None
  }
}
