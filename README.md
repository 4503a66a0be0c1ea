# homework8 record store, modelled in Dafny

The Go program `main.go` is a command-line tool that keeps a flat list of
records (`Item{Id, Email, Age}`) as a JSON array in one file. Each invocation
parses `-key value` tokens into an `Arguments` map. `Perform` then checks the
arguments in a fixed order and runs one of four handlers: `list`, `add`,
`remove` or `findById`. A handler reads the whole file, decodes it, scans it
linearly for an id, and either writes a message, writes a record's JSON, or
rewrites the file.

The model has three modules, one per part of that program:

- `ArgParser` (`args.dfy`): the `parseArgs` loop (`ParseArgs`, with the process
  arguments passed in as a token list) and key stripping (`StripKey`). The loop
  is proved equal to the specification function `ParsedArgs`. Lemmas then
  characterise that function completely:
  - which option names appear;
  - the last pair wins for repeated names;
  - a trailing token without a value is dropped.
- `Store` (`store.dfy`): the decoded store as a `seq<Item>`.
  - The `findIdOfElement` loop (`FindIdOfElement`) is proved equal to
    `FirstIndex`: the smallest index with the id, or -1 exactly when there is none.
  - `AddRecord`, `RemoveRecord` and `FindRecord` are the in-memory steps of the
    three handlers.
  - Lemmas cover the store invariant "ids are unique", which add and remove
    preserve, and how the operations relate: remove undoes add, and find sees an
    added item.
- `Dispatcher` (`dispatcher.dfy`): `isAllowedOperation`, `getFileContent`, the
  rule for decoding the store file, the four handlers, and `Perform`.
  - The file system is a parameter `Disk` mapping a file name to what reading
    that file gives.
  - `encoding/json` is a parameter `Json` holding the four conversions the
    handlers use.
  - A handler's result is an `Effect`: the text written to the output writer,
    and the item sequence handed to `json.Marshal`/`ioutil.WriteFile` (`None`
    when the file is not rewritten).
  - Errors are a datatype with one constructor per Go error message the model
    reaches (the `json.Marshal` errors are left out, see below).

## Model

| member | source | states |
|---|---|---|
| `ArgParser.RemoveAllKeepsOthers` | main.go:206-207 | `strings.ReplaceAll(s, c, "")` leaves no `c`, keeps every other character exactly as many times as it occurred (multiset equality), and changes nothing when `c` is absent |
| `ArgParser.RemoveAllAppend` | main.go:206-207 | removal distributes over concatenation, drops a lone `c` and keeps any other lone character, so the survivors stay in their order |
| `ArgParser.StripKeyCharacters` | main.go:206-207 | an option name holds no `"` and no `-`, keeps every other character of its token exactly as many times (multiset equality), and a clean token is its own name |
| `ArgParser.StripKeyAppend` | main.go:206-207 | stripping distributes over concatenation, removes a lone `"` or `-` and keeps any other lone character, so the option name is the token's other characters in order |
| `ArgParser.ParseArgs` | main.go:199-213 | the two-at-a-time loop builds exactly `ParsedArgs(cmds)` |
| `ArgParser.PairsMapKeys` | main.go:204-209 | after the first n tokens, a name is a key iff some even position below n holds a token that strips to it |
| `ArgParser.PairsMapLastWins` | main.go:204-209 | after the first n tokens, a name maps to the value after its last key token |
| `ArgParser.ParsedArgsKeys` | main.go:199-213 | a name is in the result iff some even position i with i+1 < len holds a key token that strips to it; a lone trailing token adds no name |
| `ArgParser.ParsedArgsLastWins` | main.go:199-213 | when several pairs strip to one name, the value is the one from the last pair |
| `ArgParser.PairsMapPrefix` | main.go:204-210 | the pairs stored so far do not depend on the tokens after them |
| `ArgParser.DanglingTokenDropped` | main.go:204-205 | appending one token to an even-length list leaves the parsed arguments unchanged |
| `ArgParser.DashedKey` | main.go:206-208 | a `-name` token (name without `"` or `-`) stands for the option `name` |
| `ArgParser.OperationAndFile` | main.go:199-213 | two key tokens that strip to `operation` and `fileName` give exactly those two options with their values |
| `ArgParser.StandardKeys` | main.go:206-208 | the tokens `-operation` and `-fileName` stand for the options `operation` and `fileName` |
| `ArgParser.ParsedCommandLine` | main.go:199-213 | `-operation op -fileName f` parses to `{operation: op, fileName: f}` |
| `Store.FirstIndex` | main.go:184-191 | the result is -1 exactly when no item has the id; otherwise it is an index holding the id, and no earlier index holds it |
| `Store.FindIdOfElement` | main.go:184-191 | the early-return linear scan returns `FirstIndex(items, id)` |
| `Store.AddRecord` | main.go:91-97 | a present id gives "Item with id {id} already exists" and no write; a fresh id gives no output and writes the old items unchanged followed by the new item |
| `Store.RemoveRecord` | main.go:121-128 | an absent id gives "Item with id {id} not found" and no write; otherwise there is no output and the write holds one item fewer, equal to the old items without the first match, in order |
| `Store.FindRecord` | main.go:152-162 | never writes; no match gives empty output; a match outputs the encoding of the first item with the id |
| `Store.AddPreservesUniqueIds` | main.go:91-97 | when the stored ids are unique, they stay unique after an add |
| `Store.AddTwiceReportsDuplicate` | main.go:91-94 | repeating an add that succeeded only reports the duplicate and writes nothing |
| `Store.RemoveTakesOutOneItem` | main.go:126-128 | remove takes exactly one occurrence out of the multiset of items: the first match |
| `Store.RemovePreservesUniqueIds` | main.go:121-128 | when the stored ids are unique, they stay unique after a remove, and the removed id is then absent |
| `Store.RemoveUndoesAdd` | main.go:91-128 | adding an item with a fresh id and then removing that id gives back the original store |
| `Store.FindSeesAddedItem` | main.go:152-162 | after adding an item with a fresh id, find outputs that item's encoding |
| `Store.FindUniqueMatch` | main.go:152-162 | when ids are unique, find outputs the encoding of the one item that carries the id |
| `Store.EmptyStoreSession` | main.go:91-162 | on an empty store: add, a duplicate add, find, remove, and remove again give the expected outputs and writes |
| `Dispatcher.IsAllowedOperation` | main.go:194-196 | an operation is allowed iff it is one of add, list, findById, remove |
| `Dispatcher.GetFileContent` | main.go:168-181 | success iff the file could be opened and read, with its content; a failed open gives the open error and a failed read the read error, each naming the file |
| `Dispatcher.DecodeStore` | main.go:85-89 | empty content is the empty store; non-empty content succeeds iff the JSON decode succeeds, and fails only with the store decode error |
| `Dispatcher.LoadStore` | main.go:110-119 | a readable file loads as `DecodeStore` of its content (an empty file as the empty store); an unreadable file gives exactly `getFileContent`'s error |
| `Dispatcher.ListItems` | main.go:59-66 | the output is the file content verbatim, with no write; an unreadable file gives exactly `getFileContent`'s error |
| `Dispatcher.AddItem` | main.go:69-106 | invalid item JSON, then undecodable item fields, are reported before the file is read; load errors propagate; otherwise the result is `AddRecord` on the loaded store |
| `Dispatcher.RemoveItem` | main.go:109-137 | load errors propagate; otherwise the result is `RemoveRecord` on the loaded store |
| `Dispatcher.FindItem` | main.go:140-165 | load errors propagate; otherwise the result is `FindRecord` on the loaded store, using the item encoder |
| `Dispatcher.Perform` | main.go:20-56 | checks in order: operation given, operation allowed, fileName given, then item (add) or id (remove, findById); each failure has its own error and routes no handler; otherwise the named handler runs |
| `Dispatcher.WriteBack` | main.go:99-103 | after a successful write, the store file holds the encoding of the written items and every other file is unchanged |
| `Dispatcher.UsageErrorsPrecedeFileAccess` | main.go:20-49 | a usage error does not depend on the file system or the JSON library, so no file is touched before it |
| `Dispatcher.OnlyAddAndRemoveWrite` | main.go:20-56 | a successful invocation that rewrites the store was an add or a remove |
| `Dispatcher.AbsentIdIsNotAnError` | main.go:121-125 | remove and findById of an id the store lacks succeed with "Item with id {id} not found" and empty output respectively, and write nothing |
| `Dispatcher.CommandLineUsageErrors` | main.go:20-44 | `-operation delete -fileName data.json` is refused as an unknown operation, and `-operation add -fileName data.json` as missing its item |
| `Dispatcher.AddThenFindThenRemove` | main.go:69-165 | across invocations on one file whose ages fit Go's `int`: add of a fresh id, then findById outputs the item's encoding, and remove restores the earlier store |

## Left out

- File I/O in `getFileContent` (main.go:168-181) is a parameter `Disk`. The model leaves out opening with `O_RDWR|O_CREATE`, the 0755 permission bits, creating a missing file as empty, and closing the file. The `%w` cause inside the open and read errors is not modelled either.
- `ioutil.WriteFile` (main.go:103, main.go:134) is modelled only as the item sequence a handler asks to write. The source ignores its error, and the model keeps that: a failed write is never an error. `Dispatcher.WriteBack` describes only a write that succeeded. `ioutil.WriteFile` truncates the file before writing, so a write that fails after the file was truncated leaves it empty or partial, and the next load reads an empty file as an empty store: every record is lost without an error. A failed write is not modelled.
- `encoding/json` is a parameter `Json` whose conversions are not modelled. This covers `json.Valid` and `json.Unmarshal` of the item (main.go:71-78), `json.Unmarshal` of the store (main.go:86, 116, 147) and `json.Marshal` (main.go:99, 130, 158). For example, the library decodes an item with missing fields to zero values rather than failing; that happens inside `decodeItem`. `Dispatcher.AddThenFindThenRemove` needs, as a precondition, that encoding a store whose ages fit Go's `int` gives non-empty text that decodes back.
- The `json.Marshal` error branches (main.go:100-102, 131-133, 159-161) are not modelled. Marshalling an `Item` of two strings and an int cannot fail.
- Error values carry no wrapped cause. Each Go message is named by one `Error` constructor.
- File contents and output are `string` (sequences of characters), not byte slices. Removing `"` and `-` is the same on UTF-8 bytes and on characters, because both are ASCII.
- The `io.Writer` is replaced by the returned output text. Errors from `writer.Write` are ignored by the source (main.go:64, 162) and are not modelled. `fmt.Fprintf(writer, "")` on a findById miss is modelled as the empty output.
- `os.Args[1:]` (main.go:200) is the parameter `cmds` of `ParseArgs`. `main` and its `panic` on error (main.go:215-220) are left out.
- `Item.Age` is Go's platform-sized `int` but is modelled as an unbounded `int`. The program does no arithmetic on it. The decoder can only produce ages in that range, so the round-trip assumption about the JSON library is stated only for stores whose ages satisfy `Store.GoInt`, the range of `int` on a 64-bit target.
- Concurrent invocations on one file are left out. The program is single-threaded, and each invocation is one read-modify-write.
