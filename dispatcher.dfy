/**
 * `Perform` and the four operation handlers of main.go. The backing file and
 * the `encoding/json` package are outside the model: the file system is a
 * function from file name to what reading that file yields, and the JSON
 * library is a record of the four conversions the handlers use.
 */
module Dispatcher {
  import opened Store
  import opened ArgParser

  /** The errors `Perform` can return; the comment gives Go's message text. */
  datatype Error =
    | MissingOperation               // -operation flag has to be specified
    | OperationNotAllowed(op: string) // Operation <op> not allowed!
    | MissingFileName                // -fileName flag has to be specified
    | MissingItem                    // -item flag has to be specified
    | MissingId                      // -id flag has to be specified
    | ItemNotJson                    // Item is not valid json object
    | ItemWrongFields                // Item doesn't have right fields: id, email, age. ...
    | CannotOpen(fileName: string)   // Cannot open file with filename <fileName> ...
    | CannotRead(fileName: string)   // Cannot read file with filename <fileName> ...
    | StoreNotJson                   // Json file doesn't have json object. ...
  {
    /** The checks on the arguments alone, made before any file is opened. */
    predicate IsUsageError() {
      MissingOperation? || OperationNotAllowed? || MissingFileName? || MissingItem? || MissingId?
    }
  }

  datatype Result<T> = Success(value: T) | Failure(error: Error)

  /** What opening and reading a file yields. */
  datatype Load = Loaded(content: string) | OpenFailed | ReadFailed

  /** The file system, as seen by `getFileContent`. */
  type Disk = string -> Load

  /** What `json.Valid` followed by `json.Unmarshal` into an `Item` yields. */
  datatype ItemDecoding = NotJson | WrongFields | Decoded(item: Item)

  /** The `encoding/json` conversions the handlers use. */
  datatype Json = Json(
    decodeItem: string -> ItemDecoding,
    decodeStore: string -> Option<seq<Item>>,  // Unmarshal into []Item; None on error
    encodeStore: seq<Item> -> string,          // Marshal of []Item
    encodeItem: Item -> string)                // Marshal of one Item

  /**
   * A library whose store encoding is never empty and decodes back to the same
   * items, for every store whose ages fit Go's `int`.
   */
  ghost predicate StoreRoundTrips(json: Json) {
    forall items :: GoAges(items) ==>
      |json.encodeStore(items)| > 0 && json.decodeStore(json.encodeStore(items)) == Some(items)
  }

  /** Go's `args[key]`: the value, or the empty string when the key is absent. */
  function Lookup(args: Arguments, key: string): string {
    if key in args then args[key] else ""
  }

  const AllowedOperations: set<string> := {"add", "list", "findById", "remove"}

  /** `isAllowedOperation`. */
  function IsAllowedOperation(op: string): (allowed: bool)
    ensures allowed <==> op in AllowedOperations
  {
    op == "add" || op == "list" || op == "findById" || op == "remove"
  }

  /** `getFileContent`: the file's bytes, or an error naming the file. */
  function GetFileContent(disk: Disk, fileName: string): (r: Result<string>)
    ensures r.Success? <==> disk(fileName).Loaded?
    ensures r.Success? ==> r.value == disk(fileName).content
    ensures disk(fileName) == OpenFailed ==> r == Failure(CannotOpen(fileName))
    ensures disk(fileName) == ReadFailed ==> r == Failure(CannotRead(fileName))
  {
    match disk(fileName)
    case Loaded(content) => Success(content)
    case OpenFailed => Failure(CannotOpen(fileName))
    case ReadFailed => Failure(CannotRead(fileName))
  }

  /**
   * Decoding the store file: a decode failure counts only for a non-empty file,
   * so an empty file is an empty store.
   */
  function DecodeStore(content: string, json: Json): (r: Result<seq<Item>>)
    ensures |content| == 0 ==> r == Success([])
    ensures |content| > 0 ==> (r.Success? <==> json.decodeStore(content).Some?)
    ensures |content| > 0 && r.Success? ==> r.value == json.decodeStore(content).value
    ensures r.Failure? ==> r.error == StoreNotJson
  {
    if |content| == 0 then Success([])
    else match json.decodeStore(content)
      case Some(items) => Success(items)
      case None => Failure(StoreNotJson)
  }

  /** Reading and decoding the store, as each of add, remove and findById starts. */
  function LoadStore(fileName: string, disk: Disk, json: Json): (r: Result<seq<Item>>)
    ensures disk(fileName) == Loaded([]) ==> r == Success([])
    ensures r.Success? ==> disk(fileName).Loaded?
    ensures r.Failure? ==>
      r.error in {CannotOpen(fileName), CannotRead(fileName), StoreNotJson}
    ensures disk(fileName).Loaded? ==> r == DecodeStore(disk(fileName).content, json)
    ensures !disk(fileName).Loaded? ==> r == Failure(GetFileContent(disk, fileName).error)
  {
    match GetFileContent(disk, fileName)
    case Failure(e) => Failure(e)
    case Success(content) => DecodeStore(content, json)
  }

  /** `listItems`: the file's bytes are written out verbatim, undecoded. */
  function ListItems(fileName: string, disk: Disk): (r: Result<Effect>)
    ensures disk(fileName).Loaded? ==> r == Success(Effect(disk(fileName).content, None))
    ensures !disk(fileName).Loaded? ==> r == Failure(GetFileContent(disk, fileName).error)
  {
    match GetFileContent(disk, fileName)
    case Failure(e) => Failure(e)
    case Success(content) => Success(Effect(content, None))
  }

  /**
   * `addItem`: the item text is checked and decoded before the file is read;
   * then the record is added to the decoded store.
   */
  function AddItem(fileName: string, item: string, disk: Disk, json: Json): (r: Result<Effect>)
    ensures json.decodeItem(item) == NotJson ==> r == Failure(ItemNotJson)
    ensures json.decodeItem(item) == WrongFields ==> r == Failure(ItemWrongFields)
    ensures json.decodeItem(item).Decoded? && LoadStore(fileName, disk, json).Failure? ==>
      r == Failure(LoadStore(fileName, disk, json).error)
    ensures json.decodeItem(item).Decoded? && LoadStore(fileName, disk, json).Success? ==>
      r == Success(AddRecord(LoadStore(fileName, disk, json).value, json.decodeItem(item).item))
  {
    match json.decodeItem(item)
    case NotJson => Failure(ItemNotJson)
    case WrongFields => Failure(ItemWrongFields)
    case Decoded(newItem) =>
      match LoadStore(fileName, disk, json)
      case Failure(e) => Failure(e)
      case Success(items) => Success(AddRecord(items, newItem))
  }

  /** `removeItem`: the first record with the id is removed from the decoded store. */
  function RemoveItem(fileName: string, id: string, disk: Disk, json: Json): (r: Result<Effect>)
    ensures LoadStore(fileName, disk, json).Failure? ==>
      r == Failure(LoadStore(fileName, disk, json).error)
    ensures LoadStore(fileName, disk, json).Success? ==>
      r == Success(RemoveRecord(LoadStore(fileName, disk, json).value, id))
  {
    match LoadStore(fileName, disk, json)
    case Failure(e) => Failure(e)
    case Success(items) => Success(RemoveRecord(items, id))
  }

  /** `findItem`: the encoding of the first record with the id, or no output. */
  function FindItem(fileName: string, id: string, disk: Disk, json: Json): (r: Result<Effect>)
    ensures LoadStore(fileName, disk, json).Failure? ==>
      r == Failure(LoadStore(fileName, disk, json).error)
    ensures LoadStore(fileName, disk, json).Success? ==>
      r == Success(FindRecord(LoadStore(fileName, disk, json).value, id, json.encodeItem))
  {
    match LoadStore(fileName, disk, json)
    case Failure(e) => Failure(e)
    case Success(items) => Success(FindRecord(items, id, json.encodeItem))
  }

  /**
   * `Perform`: the checks in their fixed order (operation given, operation
   * allowed, file name given, then item for add or id for remove and
   * findById), after which the operation's handler runs.
   */
  function Perform(args: Arguments, disk: Disk, json: Json): (r: Result<Effect>)
    ensures Lookup(args, "operation") == "" ==> r == Failure(MissingOperation)
    ensures Lookup(args, "operation") != "" && !IsAllowedOperation(Lookup(args, "operation")) ==>
      r == Failure(OperationNotAllowed(Lookup(args, "operation")))
    ensures IsAllowedOperation(Lookup(args, "operation")) && Lookup(args, "fileName") == "" ==>
      r == Failure(MissingFileName)
    ensures (Lookup(args, "operation") == "add" && Lookup(args, "fileName") != "" &&
             Lookup(args, "item") == "") ==> r == Failure(MissingItem)
    ensures (Lookup(args, "operation") in {"remove", "findById"} && Lookup(args, "fileName") != "" &&
             Lookup(args, "id") == "") ==> r == Failure(MissingId)
    ensures Lookup(args, "operation") == "list" && Lookup(args, "fileName") != "" ==>
      r == ListItems(Lookup(args, "fileName"), disk)
    ensures (Lookup(args, "operation") == "add" && Lookup(args, "fileName") != "" &&
             Lookup(args, "item") != "") ==>
      r == AddItem(Lookup(args, "fileName"), Lookup(args, "item"), disk, json)
    ensures (Lookup(args, "operation") == "remove" && Lookup(args, "fileName") != "" &&
             Lookup(args, "id") != "") ==>
      r == RemoveItem(Lookup(args, "fileName"), Lookup(args, "id"), disk, json)
    ensures (Lookup(args, "operation") == "findById" && Lookup(args, "fileName") != "" &&
             Lookup(args, "id") != "") ==>
      r == FindItem(Lookup(args, "fileName"), Lookup(args, "id"), disk, json)
  {
    var operation := Lookup(args, "operation");
    if |operation| == 0 then Failure(MissingOperation)
    else if !IsAllowedOperation(operation) then Failure(OperationNotAllowed(operation))
    else
      var fileName := Lookup(args, "fileName");
      if |fileName| == 0 then Failure(MissingFileName)
      else if operation == "list" then ListItems(fileName, disk)
      else if operation == "add" then
        var item := Lookup(args, "item");
        if |item| == 0 then Failure(MissingItem) else AddItem(fileName, item, disk, json)
      else
        var id := Lookup(args, "id");
        if |id| == 0 then Failure(MissingId)
        else if operation == "remove" then RemoveItem(fileName, id, disk, json)
        else FindItem(fileName, id, disk, json)
  }

  /**
   * The file system after an invocation whose `ioutil.WriteFile` succeeded: the
   * store file holds the encoding of the written items. The source ignores the
   * error of `ioutil.WriteFile`. A write that fails after the file was truncated
   * leaves it empty or partial, and the next load reads an empty file as an
   * empty store. A failed write is not modelled.
   */
  function WriteBack(disk: Disk, fileName: string, effect: Effect, json: Json): (disk': Disk)
    ensures effect.written.Some? ==> disk'(fileName) == Loaded(json.encodeStore(effect.written.value))
    ensures forall f :: f != fileName || effect.written.None? ==> disk'(f) == disk(f)
  {
    match effect.written
    case None => disk
    case Some(items) =>
      f => if f == fileName then Loaded(json.encodeStore(items)) else disk(f)
  }

  // ---------------------------------------------------------------------
  // Properties of the whole invocation.
  // ---------------------------------------------------------------------

  /**
   * A usage error is decided by the arguments alone: neither the file system
   * nor the JSON library can change it, so no file is touched before it.
   */
  lemma UsageErrorsPrecedeFileAccess(args: Arguments, disk: Disk, json: Json, disk': Disk, json': Json)
    requires Perform(args, disk, json).Failure?
    requires Perform(args, disk, json).error.IsUsageError()
    ensures Perform(args, disk', json') == Perform(args, disk, json)
  {
  }

  /** Only add and remove ever rewrite the store file; list and findById only read. */
  lemma OnlyAddAndRemoveWrite(args: Arguments, disk: Disk, json: Json)
    requires Perform(args, disk, json).Success?
    requires Perform(args, disk, json).value.written.Some?
    ensures Lookup(args, "operation") in {"add", "remove"}
  {
  }

  /** Removing or finding an id the store lacks is a success, not an error. */
  lemma AbsentIdIsNotAnError(args: Arguments, disk: Disk, json: Json, items: seq<Item>)
    requires Lookup(args, "operation") in {"remove", "findById"}
    requires Lookup(args, "fileName") != "" && Lookup(args, "id") != ""
    requires LoadStore(Lookup(args, "fileName"), disk, json) == Success(items)
    requires !HasId(items, Lookup(args, "id"))
    ensures Perform(args, disk, json) == Success(Effect(
      if Lookup(args, "operation") == "remove"
      then "Item with id " + Lookup(args, "id") + " not found"
      else "",
      None))
  {
  }

  /**
   * From the command line to the error: `-operation delete -fileName data.json`
   * is refused as an unknown operation, and `-operation add -fileName data.json`
   * as an add without an item, whatever the files hold.
   */
  lemma CommandLineUsageErrors(disk: Disk, json: Json)
    ensures Perform(ParsedArgs(["-operation", "delete", "-fileName", "data.json"]), disk, json) ==
      Failure(OperationNotAllowed("delete"))
    ensures Perform(ParsedArgs(["-operation", "add", "-fileName", "data.json"]), disk, json) ==
      Failure(MissingItem)
  {
    ParsedCommandLine("delete", "data.json");
    ParsedCommandLine("add", "data.json");
  }

  /**
   * Across invocations on one store file: after adding an item with a fresh id,
   * findById answers with the item's encoding, and remove restores the store
   * that was there before the add.
   */
  lemma AddThenFindThenRemove(fileName: string, text: string, x: Item, items: seq<Item>,
                              disk: Disk, json: Json)
    requires StoreRoundTrips(json)
    requires GoInt(x.age) && GoAges(items)
    requires fileName != "" && text != "" && x.id != ""
    requires json.decodeItem(text) == Decoded(x)
    requires LoadStore(fileName, disk, json) == Success(items)
    requires !HasId(items, x.id)
    ensures var add := Perform(map["operation" := "add", "fileName" := fileName, "item" := text], disk, json);
      add == Success(Effect("", Some(items + [x]))) &&
      var disk' := WriteBack(disk, fileName, add.value, json);
      Perform(map["operation" := "findById", "fileName" := fileName, "id" := x.id], disk', json) ==
        Success(Effect(json.encodeItem(x), None)) &&
      Perform(map["operation" := "remove", "fileName" := fileName, "id" := x.id], disk', json) ==
        Success(Effect("", Some(items)))
  {
    var addArgs := map["operation" := "add", "fileName" := fileName, "item" := text];
    assert Lookup(addArgs, "operation") == "add" && Lookup(addArgs, "fileName") == fileName;
    assert Lookup(addArgs, "item") == text;
    var add := Perform(addArgs, disk, json);
    RemoveUndoesAdd(items, x);
    assert add == Success(Effect("", Some(items + [x])));
    var disk' := WriteBack(disk, fileName, add.value, json);
    assert GoAges(items + [x]);
    assert LoadStore(fileName, disk', json) == Success(items + [x]);
    var findArgs := map["operation" := "findById", "fileName" := fileName, "id" := x.id];
    assert Lookup(findArgs, "operation") == "findById" && Lookup(findArgs, "fileName") == fileName;
    assert Lookup(findArgs, "id") == x.id;
    FindSeesAddedItem(items, x, json.encodeItem);
    var removeArgs := map["operation" := "remove", "fileName" := fileName, "id" := x.id];
    assert Lookup(removeArgs, "operation") == "remove" && Lookup(removeArgs, "fileName") == fileName;
    assert Lookup(removeArgs, "id") == x.id;
  }
}
