# redis-tui: the RESP2 codec and the session controller, in Dafny

redis-tui is a terminal client for Redis written in Go. This project models
two parts of it and proves properties about them.

1. **The RESP2 codec** of internal/redis/client.go, with a verbatim copy in
   main.go.
   - `RedisCmd.ToBytes` frames a command as an array of bulk strings.
   - `ReadResp` reads one reply from a shared `bufio.Reader`.
   - The model of `ToBytes` builds the buffer argument by argument. The model
     of `ReadResp` advances a `Reader` object over the connection's bytes. It
     recurses for nested arrays and grows the item list in a counted loop.
   - Both methods are proved against specification functions:
     `Resp.EncodeCommand` for the bytes written, and `Resp.Parse` for the value
     or error read and the position the read stops at.
   - Properties of those functions are proved in `RespProps`. The headline is
     the round trip: a framed command reads back as the array of its name and
     arguments and stops exactly at its end.
2. **The session controller** of internal/tui/model.go.
   - `Model.Update` receives the session by value and returns the new session
     and one follow-up task. In the model it is the pure function
     `Tui.Update(Model, Msg): Step`, with the same two phases as the Go code:
     first by message kind, then by current state.
   - Tasks (send a command, scan, dial, wait) are the `Effect` of a step. What a
     task eventually delivers arrives as a later `Msg`.
   - The key scan `scanRedisKeys` is the method `TuiScan.ScanKeys`. It writes
     SCAN commands and reads replies through the codec until the cursor is
     "0", and it is proved against the function `TuiScan.ScanFrom`.
   - `TuiProps` proves:
     - the reply table and the list entries built from replies;
     - the history rule of Loading and Confirmation;
     - the reconnection loop;
     - the destructive commands;
     - the two places where the controller waits for a reply it cannot accept.
   - `TuiScenarios` runs sessions message by message. From the session
     cmd/redis-tui/main.go creates, it moves the menu cursor to EXPLORE and
     shows that no dial of that session can succeed. The longer walks
     (exploring a hash field, deleting a key, deleting a hash field) start
     from any session in the menu.

Go strings are byte strings, modelled as `seq<Byte>` with `Byte` a `char`
below 256. `len` is `|s|`, so every length prefix counts bytes. Go's `int` is
64-bit: `strconv.Atoi` refuses numbers outside that range, and the model does
the same.

The decoder returns only the two dynamic types the Go code returns: `Str` for
`string` and `Arr` for `[]any`. Several quirks of the code are kept as
written:
- `+` and `-` lines decode alike.
- `$-1` and `*-1` both decode to the text "(nil)".
- A byte that starts no known reply type decodes to "" without error. This
  includes the integer prefix `:`.
- An array count below -1 gives an empty array.
- A bulk length below -1 is an error, because Go's `make` panics there.

The controller's operation tag `SelectedOp` is a Go string. The tags the code
compares against are constructors of `Tui.Op`. Any other string is kept in
`Named`, and `TuiProps.OpNameOfOp` proves the encoding loses nothing.

### Behaviour of the code that the model keeps

- **Initial state.** cmd/redis-tui/main.go:42-66 dials localhost:6379 before
  the program starts, then builds the session in Menu with that connection
  set. It leaves `RedisAddress` empty. `TuiScenarios.Start` is that session.
- **No reconnection.** Every dial inside the controller is
  `connectToRedis(m.RedisAddress)` (model.go:213, 240 and 263), and `net.Dial`
  refuses an empty address. The dial that `Init` starts at launch therefore
  fails and retries every two seconds without changing the session. After a
  transport error the session stays in Loading for good
  (`TuiScenarios.StartNeverReconnects`, `TuiProps.RetriesChangeNothing`).
  `TuiProps.ConnectionRestoresPrevious` and `TuiProps.Reconnect` state what a
  successful dial does, which needs a session with an address.
- **HGET from the menu.** Entering a key for HGET sends HKEYS under the tag
  HGET (model.go:497-503), and the HGET reply branch accepts only a string.
  The array HKEYS answers therefore leaves the session in Loading
  (`TuiProps.HgetFromInputKeyStalls`).
- **Integer replies.** The decoder has no integer variant. DELETE, HSET and
  RPUSH wait for an `int` (model.go:432-438), so they always show "Unexpected
  response" (`TuiProps.DeleteNeverGetsInteger`).
- **Errors after a command.** An error other than a transport error is
  written to the output (model.go:266-267). For SET, LSET, the TYPE probe,
  DELETE, HSET and RPUSH the reply branch then overwrites it with "Unexpected
  response" (`TuiProps.FailureOverwritten`). A failed DEL, HDEL or LREM is
  announced as a deletion and refreshes its list, with Output as the state to
  return to (`TuiProps.FailedDeleteReported`).

## Model

| member | source | states |
|---|---|---|
| RedisClient.ToBytes | internal/redis/client.go:17-33 | The bytes written are the array header counting name and arguments, then the name and each argument in order as bulk strings (`EncodeCommand`) |
| RespProps.BulkLengthIsByteCount | internal/redis/client.go:25-29 | The length a bulk string announces reads back as its byte count, and exactly its bytes and CRLF follow |
| RespProps.CommandRoundTrip | internal/redis/client.go:17-110 | Whatever follows it, a framed command decodes as `Arr([Str(name)] + Strs(args))` for any argument bytes, and the read stops exactly at its end |
| RespProps.CommandIsArrayOfBulks | internal/redis/client.go:17-33 | The framing of a command is the framing of the array of its name and arguments as bulk strings |
| RespProps.ParseEncoded | internal/redis/client.go:35-115 | Any server-framed value whose lengths fit an `int` decodes back to itself, and the read stops right after its bytes |
| RedisClient.ReadResp | internal/redis/client.go:35-115 | Reads exactly what `Parse` describes: it returns the value with no error, or "" with the error, and leaves the reader where `Parse` stops |
| RedisClient.ReadSimple | internal/redis/client.go:43-49 | After `+` or `-`: the rest of the line, trimmed, or the read error |
| RedisClient.ReadLength | internal/redis/client.go:53-62 | A length line is `strconv.Atoi` of the trimmed line; an I/O or number error is returned as is |
| RedisClient.ReadBulk | internal/redis/client.go:51-81 | After `$`: "(nil)" for -1, an error below -1, otherwise exactly `n` bytes with the rest of the line discarded, as `BulkString` says |
| RedisClient.ReadArray | internal/redis/client.go:82-110 | After `*`: "(nil)" for -1, an empty array for 0 or less, otherwise `n` items, as `ArrayReply` says |
| RedisClient.ReadItems | internal/redis/client.go:99-110 | The counted loop reads `n` replies in order and stops at the first error, as `ParseItems` says |
| Resp.Parse | internal/redis/client.go:35-115 | A read stays inside the stream and consumes at least one byte when it succeeds |
| Resp.LengthLine | internal/redis/client.go:53-62 | A length line stays inside the stream and consumes at least one byte when it is a number |
| Resp.ParseItems | internal/redis/client.go:99-110 | A successful read of `n` items yields exactly `n` values |
| RespProps.ParsePrefix | internal/redis/client.go:42-51 | The prefix byte selects the branch: `+`/`-` a line, `$` a bulk string, `*` an array |
| RespProps.NullBulk | internal/redis/client.go:64-66 | `$-1` decodes to "(nil)" and consumes its five bytes |
| RespProps.NullArray | internal/redis/client.go:95-97 | `*-1` decodes to "(nil)", never to an empty array |
| RespProps.NegativeBulkLength | internal/redis/client.go:64-69 | A bulk length below -1 is the error `make` panics on, right after the length line |
| RespProps.NegativeArrayCount | internal/redis/client.go:95-110 | An array count below -1 runs the loop zero times: an empty array |
| RespProps.BadLength | internal/redis/client.go:59-62 | A length or count line `Atoi` refuses fails the whole read with that error, just after the line; nothing of the reply is kept |
| RespProps.MalformedLength | internal/redis/client.go:59-62 | `$abc` is a decode error naming "abc" as invalid syntax |
| RespProps.OverflowingLength | internal/redis/client.go:53-62 | A length line such as `$99999999999999999999x` fails as out of range, not as invalid syntax, and the read stops after the line |
| RespProps.ItemsInOrder | internal/redis/client.go:101-109 | The items of an array are the replies decoded one after the other, each starting where the previous one stopped |
| RespProps.ArrayInOrder | internal/redis/client.go:99-110 | An array with count `n` decodes to exactly `n` items, each its own reply, in stream order |
| RespProps.ItemErrorAborts | internal/redis/client.go:102-105 | If the items before `i` decode and item `i` fails, the whole item read fails with that error |
| RespProps.ArrayItemErrorAborts | internal/redis/client.go:99-110 | One failing item fails the whole array reply |
| RespProps.StatusLine | internal/redis/client.go:43-49 | `+w` and `-w` lines decode to `w`, without the CRLF and the surrounding white space |
| RespProps.StatusAndErrorAlike | internal/redis/client.go:43 | A simple string and an error with the same text decode identically |
| RespProps.UnknownPrefix | internal/redis/client.go:114 | Any other prefix byte gives "" with no error and consumes only that byte |
| RespProps.IntegerReplyIgnored | internal/redis/client.go:42-114 | An integer reply `:digits` is read as "" from its first byte alone |
| RespProps.EmptyStream | internal/redis/client.go:37-40 | Reading from a closed, empty stream is `io.EOF` |
| RespProps.ParseExtend | internal/redis/client.go:35-115 | Bytes arriving after a reply do not change how it decodes |
| RespProps.BulkStringAfter | internal/redis/client.go:64-81 | Once the length line is read: -1 is "(nil)", below -1 an error, otherwise the body |
| RespProps.ArrayReplyAfter | internal/redis/client.go:95-110 | Once the count line is read: -1 is "(nil)", 0 or less an empty array, otherwise the items or their error |
| RespProps.HeaderFails | internal/redis/client.go:53-62 | A failing length line fails the bulk string or array with the same error |
| GoText.AtoiItoa | internal/redis/client.go:22-25 | `strconv.Atoi` reads back every `int` that `%d` prints |
| GoText.AtoiRange | internal/redis/client.go:59 | `Atoi` accepts only numbers that fit a 64-bit `int`; a refusal names its input |
| GoText.DigitsThenOther | internal/redis/client.go:59 | Digits followed by a non-digit are refused: out of range when the digits alone exceed the largest `uint64`, invalid syntax otherwise |
| GoText.OverflowBeforeSyntax | internal/redis/client.go:59 | Digits above the largest `uint64` are out of range, whatever follows them |
| GoText.TrimSpaceSlice | internal/redis/client.go:49 | `TrimSpace` returns a slice of its input, cuts only white space, and the result neither starts nor ends with white space |
| GoText.TrimLine | internal/redis/client.go:45-49 | A CRLF-ended line whose text has no white space at its ends trims to that text |
| Stream.NewlineFromIsFirst | internal/redis/client.go:45 | The line read ends at the first line feed, or the stream has none left |
| Stream.Reader.ReadByte | internal/redis/client.go:37-40 | The next byte and one step forward, or `io.EOF` at the end |
| Stream.Reader.ReadLine | internal/redis/client.go:45-48 | `ReadString('\n')`: through the next line feed, or the rest of the stream and `io.EOF` |
| Stream.Reader.ReadFull | internal/redis/client.go:69-73 | Exactly `n` bytes, or `io.EOF` when none and `io.ErrUnexpectedEOF` when only some are left |
| TuiScan.ScanKeys | internal/tui/model.go:104-149 | Writes one SCAN per round and reads each reply; it ends, reads and writes exactly as `Scan` describes |
| TuiScan.AppendKeys | internal/tui/model.go:131-137 | Appends one "key" entry per string of the reply's second item, in order |
| TuiScan.KeysOfMembers | internal/tui/model.go:132-136 | The entries are exactly the strings of the key array, each described as "key" |
| TuiScan.KeysOfStrs | internal/tui/model.go:132-136 | A key array of strings gives one entry per string, in the same order |
| TuiScan.ScanCursors | internal/tui/model.go:109-144 | Each round sends the cursor in hand; every later cursor sent is one the server returned that was not "0" |
| TuiScan.ScanSendsZeroOnce | internal/tui/model.go:106-144 | A scan sends cursor "0" first and never again |
| TuiScan.ScanKeepsKeys | internal/tui/model.go:108-137 | Keys once collected stay in front, and everything added is a "key" entry |
| TuiScan.NonArrayReplyKeepsCursor | internal/tui/model.go:126-143 | A reply that is not an array keeps cursor and keys: it ends at "0" and otherwise sends the same cursor again |
| TuiScan.ShortArrayPanics | internal/tui/model.go:126-131 | An array reply of fewer than two items panics |
| TuiScan.ScanRound | internal/tui/model.go:126-143 | A round whose reply is (cursor `c`, keys `ks`) moves to `c` and adds the keys of `ks` |
| TuiScan.ScanOneRound | internal/tui/model.go:104-149 | A single reply with cursor "0" lists its keys in order after one `SCAN 0` |
| TuiScan.ScanTwoRounds | internal/tui/model.go:104-149 | The second SCAN sends the cursor the first reply returned, and the keys of both replies are listed in reply order |
| TuiScan.ScanShownInBrowser | internal/tui/model.go:291-295 | The finished scan for EXPLORE shows the browser with exactly the keys found |
| TuiScan.ClosedScanReconnects | internal/tui/model.go:120-125 | A scan cut off by a closed connection makes the session reconnect, keeping its history |
| TuiProps.OpNameOfOp | internal/tui/model.go:448 | Every string survives the tag encoding; a string has its own tag exactly when it is one of the compared tags |
| TuiProps.HashFieldEntriesMembers | internal/tui/model.go:277-289 | HKEYS lists exactly the strings of the reply, each described as a hash field |
| TuiProps.HashFieldsAreIndexed | internal/tui/model.go:277-310 | HKEYS and LRANGE list the same strings in the same order |
| TuiProps.IndexedEntriesMembers | internal/tui/model.go:297-310 | LRANGE and SMEMBERS list an entry exactly when its index is a reply position holding that string, described as "Index: i" |
| TuiProps.IndexedEntriesOrdered | internal/tui/model.go:297-310 | LRANGE and SMEMBERS entries keep the order of the reply |
| TuiProps.ScoredEntriesMembers | internal/tui/model.go:312-336 | ZRANGE lists an entry exactly when a member position holds its title, with the score after it or "unknown" |
| TuiProps.ScoredEntriesInOrder | internal/tui/model.go:312-336 | ZRANGE lists one entry per member position holding a string and no other, in the order of those positions, each with that member and the score after it |
| TuiProps.SwitchToLoadingHistory | internal/tui/model.go:201-210 | Always enters Loading and hands over the follow-up; remembers the state left only when it was not Loading; changes nothing else |
| TuiProps.LoadingAgainKeepsHistory | internal/tui/model.go:201-210 | Entering Loading a second time keeps the state to resume |
| TuiProps.PreviousNeverLoading | internal/tui/model.go:216-793 | The state to go back to never becomes Loading |
| TuiProps.UpdateSound | internal/tui/model.go:216-793 | Every message except the retry tick keeps the history free of Loading, starts work only while entering Loading, and keeps `RedisAddress`, which is the address it dials |
| TuiProps.OnReplySound | internal/tui/model.go:270-440 | A reply branch either finishes with such a step or leaves the history alone |
| TuiProps.DispatchSound | internal/tui/model.go:443-793 | Every state's key handling keeps that rule |
| TuiProps.MenuSound | internal/tui/model.go:444-464 | The menu keeps that rule |
| TuiProps.InputKeySound | internal/tui/model.go:466-521 | Key input keeps that rule |
| TuiProps.InputFieldSound | internal/tui/model.go:523-549 | Field input keeps that rule |
| TuiProps.InputValueSound | internal/tui/model.go:551-607 | Value input keeps that rule |
| TuiProps.FieldSelectSound | internal/tui/model.go:609-664 | The field list keeps that rule |
| TuiProps.OutputSound | internal/tui/model.go:666-693 | The output view keeps that rule |
| TuiProps.BrowserSound | internal/tui/model.go:695-734 | The key browser keeps that rule |
| TuiProps.ConfirmationSound | internal/tui/model.go:736-788 | The confirmation prompt keeps that rule |
| TuiProps.AddressKept | internal/tui/model.go:216-264 | No message changes `RedisAddress`, and every dial, after a tick or a transport error, is of that address |
| TuiProps.RetriesChangeNothing | internal/tui/model.go:239-245 | A failed attempt waits and the end of the wait dials again; any number of retries leaves the session unchanged |
| TuiProps.ConnectionRestoresPrevious | internal/tui/model.go:242-252 | A successful connection returns to the remembered state and changes nothing else (a session with an empty address never gets one) |
| TuiProps.Reconnect | internal/tui/model.go:239-264 | A transport error enters Loading and dials the session's address; after any number of failed retries, a success resumes the interrupted state with the rest of the session unchanged |
| TuiProps.ClosedStreamReconnects | internal/tui/model.go:254-264 | A reply cut off by a closed connection reconnects; a reply cut short inside a bulk string is shown as an error |
| TuiProps.FailureShown | internal/tui/model.go:254-268 | For GET, HGET, HKEYS, LRANGE, SMEMBERS, ZRANGE, EXPLORE, EXPLORE_LIST and tags with no reply branch, a command error other than a transport error is shown in Output with its text |
| TuiProps.FailureOverwritten | internal/tui/model.go:266-438 | For SET, LSET, the TYPE probe, DELETE, HSET and RPUSH the error text is overwritten, and Output shows "Unexpected response" |
| TuiProps.FailedDeleteReported | internal/tui/model.go:399-430 | A failed DEL, HDEL or LREM is announced as a deletion and refreshes its list (SCAN, HKEYS or LRANGE), with Output as the state to return to |
| TuiProps.ProbeSendsExploreCommand | internal/tui/model.go:338-386 | The TYPE answer picks GET, HKEYS, LRANGE 0 -1, SMEMBERS or ZRANGE 0 -1 WITHSCORES, tags the session with it and enters Loading through the history rule |
| TuiProps.ProbeOfUnknownTypeStalls | internal/tui/model.go:338-389 | A TYPE answer naming no known type is not acted upon; the session keeps waiting |
| TuiProps.ProbeThenReply | internal/tui/model.go:271-386 | After a probe, the reply of the command it sent is accepted: arrays reach FieldSelect, a string reaches Output |
| TuiProps.ZrangeReply | internal/tui/model.go:312-336 | ZRANGE fills the field list with member entries and scores, tags EXPLORE_LIST and enters FieldSelect |
| TuiProps.ListReplyStep | internal/tui/model.go:297-310 | LRANGE and SMEMBERS fill the field list with indexed entries, tag EXPLORE_LIST and enter FieldSelect |
| TuiProps.ListReply | internal/tui/model.go:297-310 | The listed entries are exactly the reply's strings, by position |
| TuiProps.HashReply | internal/tui/model.go:277-289 | HKEYS fills the field list with the reply's strings as hash fields and enters FieldSelect |
| TuiProps.HgetFromInputKeyStalls | internal/tui/model.go:497-503 | HGET from the menu sends HKEYS under the tag HGET, and the array reply leaves the session in Loading |
| TuiProps.DeleteNeverGetsInteger | internal/tui/model.go:432-438 | DELETE, HSET and RPUSH never see an integer: every reply shows "Unexpected response" |
| TuiProps.LoadingIgnoresInput | internal/tui/model.go:443-792 | In Loading, keys other than ctrl+c and other messages change nothing |
| TuiProps.CommandsOnlyFromLoading | internal/tui/model.go:216-793 | A command or a scan is started only while entering Loading; a dial only then or at the end of a retry delay |
| TuiProps.DeleteAsksFirst | internal/tui/model.go:642-727 | `d` on a key or a field sends nothing: it asks for confirmation, remembers where it was asked, and tags DEL, HDEL or LREM |
| TuiProps.ConfirmYesPreservesHistory | internal/tui/model.go:745-781 | `y`/`Y` sends DEL, HDEL or LREM key 1 field, as the remembered state and tag say, and enters Loading without touching the history |
| TuiProps.ConfirmNoReturns | internal/tui/model.go:740-743 | `esc`, `n` or `N` returns to the remembered state and sends nothing |
| TuiProps.InputValueSubmit | internal/tui/model.go:560-602 | `enter` on a value clears the input, stores the value and sends SET, HSET, LSET or RPUSH with the right arguments |
| TuiProps.InputKeySubmit | internal/tui/model.go:475-516 | `enter` on a key stores it and sends GET or DEL, or asks for a value or field |
| TuiProps.OutputEdit | internal/tui/model.go:676-692 | `e` edits the output as the value of SET, HSET or LSET |
| TuiProps.MenuSelect | internal/tui/model.go:445-458 | The menu starts key input for the data operations and a scan for EXPLORE |
| TuiScenarios.RunKeepsAddress | internal/tui/model.go:216-264 | Over any sequence of messages the address stays as it was, and every dial asked for is of it |
| TuiScenarios.StartNeverReconnects | cmd/redis-tui/main.go:57-66 | The session main starts has no address, so the dial `Init` starts and every dial after a transport error fail, whatever the network does |
| TuiScenarios.DownToExplore | cmd/redis-tui/main.go:19-25 | In the starting session, four steps down put the cursor on EXPLORE |
| TuiScenarios.KeysListed | internal/tui/model.go:291-295 | The keys of a scan for EXPLORE fill the browser |
| TuiScenarios.KeyProbed | internal/tui/model.go:705-717 | `enter` on a key probes its type |
| TuiScenarios.HashProbed | internal/tui/model.go:350-357 | A "hash" probe answer sends HKEYS |
| TuiScenarios.FieldRead | internal/tui/model.go:620-634 | `enter` on a field sends HGET for it |
| TuiScenarios.ValueShown | internal/tui/model.go:271-275 | A string for GET or HGET is shown in Output |
| TuiScenarios.OutputClosed | internal/tui/model.go:670-674 | `esc` on the output returns to the remembered state |
| TuiScenarios.KeyDeleteAsked | internal/tui/model.go:719-727 | `d` on a key asks for confirmation, remembering the browser |
| TuiScenarios.DeletedRescans | internal/tui/model.go:399-404 | Whatever the reply to DEL, the key space is scanned again |
| TuiScenarios.BrowseToProbe | internal/tui/model.go:445-457 | From the menu, EXPLORE scans, lists the keys and probes the first key's type, remembering the browser |
| TuiScenarios.ProbeToFields | internal/tui/model.go:350-357 | A probe that reports a hash leads to the list of its fields |
| TuiScenarios.FieldToValue | internal/tui/model.go:620-634 | Reading a field shows its value, with the field list to go back to |
| TuiScenarios.FirstHashField | internal/tui/model.go:280-283 | A listing of string fields starts with the first field |
| TuiScenarios.BrowseToFields | internal/tui/model.go:291-357 | From the menu to the field list of a hash key, with the commands TYPE and HKEYS sent |
| TuiScenarios.ExploreHashField | internal/tui/model.go:291-674 | The whole walk from the menu to a hash field's value sends SCAN, TYPE, HKEYS and HGET in that order and shows the value; `esc` goes back to the field list |
| TuiScenarios.KeyDeleteConfirmed | internal/tui/model.go:745-757 | `d` then `y` on a key sends DEL for it, remembering the browser |
| TuiScenarios.KeysRefreshed | internal/tui/model.go:399-404 | After DEL the keys are scanned again and fill the browser |
| TuiScenarios.DeleteKey | internal/tui/model.go:719-757 | Deleting a key asks first, sends DEL on `y`, rescans, and lists the new keys in the browser with Browser still the state to return to |
| TuiScenarios.FieldDeleteAsked | internal/tui/model.go:642-657 | `d` on a field asks for confirmation, tagging LREM for a list and HDEL otherwise |
| TuiScenarios.FieldDeletedRelists | internal/tui/model.go:406-417 | Whatever the reply to HDEL, the hash's fields are listed again |
| TuiScenarios.FieldListClosed | internal/tui/model.go:614-618 | `esc` on a field list goes back to the remembered state |
| TuiScenarios.FieldDeleteConfirmed | internal/tui/model.go:759-769 | `d` then `y` on a hash field sends HDEL for it, remembering the field list |
| TuiScenarios.FieldsRefreshed | internal/tui/model.go:406-417 | After HDEL, the hash's fields are listed again |
| TuiScenarios.DeleteHashField | internal/tui/model.go:642-769 | Deleting a hash field sends HDEL then HKEYS; afterwards FieldSelect is the state to return to, so `esc` on the new list stays in FieldSelect |

main.go:75-173 is a copy of internal/redis/client.go:17-115, line for line,
58 lines further down. Each row above that cites client.go also holds for that
copy: for example `ToBytes` is main.go:75-91 and `ReadResp` is main.go:93-173.

## Left out

- Real I/O is not modelled. Dialling, writing to the connection, the two-second wait and the terminal belong to the runtime and are out of scope. Commands and scans are `Effect`s, and their outcomes are `Msg`s. Where the model reads replies, the connection's bytes are a fixed sequence, and the end of that sequence is a closed connection (`io.EOF`).
- A failed `conn.Write` is not modelled. Writes are taken to succeed, and a dropped connection shows up as `io.EOF` on the read that follows. The scan's written bytes are returned instead of being sent.
- TuiScan.ScanKeys: the keys, the sent cursors and the end of the scan are stated. That the result is delivered as a message later, possibly to a session that has moved on, is not. Concurrency and stale results are left out.
- The nil-connection check of `sendRedisCmd` (model.go:155-157) is left out. The session cmd/redis-tui/main.go starts holds a connection from the start, and since no dial of that session succeeds (`TuiScenarios.StartNeverReconnects`), that connection is never replaced.
- Widget internals are left out: pagination, filtering, help, cursor movement inside the text input, and Unicode runes. A list is its items and a cursor that `up`/`k` and `down`/`j` move.
- The rest of the list's own KeyMap is left out. In the model these keys reach the list as a `Widget` effect and change nothing. In the program:
  - `q` quits in every state that hands keys to a list: Menu, FieldSelect, Browser and Confirmation.
  - `esc` also quits in Menu.
  - `g`/`home` and `G`/`end` jump to the first and the last item.
  - `left`/`h`/`pgup`/`b`/`u` and `right`/`l`/`pgdown`/`f`/`d` change page. This includes the `d` that asks for a deletion.
  - `/` starts filtering and `?` shows the help. The text input is its text, which single-byte keys append to and `backspace` shortens. The input is always focused, so `Focus` is not modelled.
- `View`, `WindowSizeMsg` sizing, styles and `textinput.Blink` are left out. They do not change the controller's state.
- `Init` is `Tui.Init`: it dials `RedisAddress`. For the session main starts that dial fails and begins a retry loop that never ends and leaves the session as it is (`TuiScenarios.StartNeverReconnects`). Whether a non-empty address can be dialled depends on the network and is the parameter `reachable` of `Tui.DialOutcome`.
- `Update`, `View` and `run` of main.go are left out. They are an older controller that does blocking round trips inside key handlers. Only main.go's copy of the codec is modelled.
- cmd/redis-tui/main.go is not modelled beyond the starting session: the menu items and the Menu state.
- GoText.TrimSpace removes ASCII white space only. `strings.TrimSpace` also removes Unicode white space, which matters only for text outside ASCII.
- Tui.NumErrorText renders the input between plain quotes. `strconv.Quote` also escapes special characters in it.
- Resp.Parse does not model a huge bulk length that `make` cannot allocate. The model reports a short read instead of running out of memory.
- A panicking read is not modelled. A negative bulk length and a scan reply with fewer than two items are outcomes of their own (`NegativeLength`, `Panicked`), and no message follows them.
