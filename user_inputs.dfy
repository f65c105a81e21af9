/**
 * The remembered listen ports (bountui/remember_user_input.rs): a JSON
 * file holding a map from target id to port, read in full and written
 * back in full on every store. The file is modelled by what reading it
 * yields.
 */
module UserInputs {
  import opened Wrappers
  import opened Text

  datatype FileState =
    | Missing
    | EmptyFile
    | Document(localPorts: map<string, u16>)
    | Malformed
    | Unreadable

  /** `read_user_inputs`: no file and an empty file both read as no ports. */
  function ReadUserInputs(f: FileState): (r: Result<map<string, u16>, string>)
    ensures f.Missing? || f.EmptyFile? ==> r == Ok(map[])
    ensures f.Document? ==> r == Ok(f.localPorts)
    ensures r.Err? <==> f.Malformed? || f.Unreadable?
  {
    match f
    case Missing => Ok(map[])
    case EmptyFile => Ok(map[])
    case Document(ports) => Ok(ports)
    case Malformed => Err("Failed to parse json")
    case Unreadable => Err("Failed to read from file")
  }

  /** `get_local_port`: the stored port of a target, if any. */
  function LocalPort(f: FileState, target: string): (r: Result<Option<u16>, string>)
    ensures r.Err? <==> ReadUserInputs(f).Err?
    ensures r.Ok? ==> (r.value.Some? <==> target in ReadUserInputs(f).value)
    ensures r.Ok? && r.value.Some? ==> r.value.value == ReadUserInputs(f).value[target]
  {
    match ReadUserInputs(f)
    case Err(_) => Err("Failed to read user inputs")
    case Ok(ports) => Ok(if target in ports then Some(ports[target]) else None)
  }

  /**
   * `store_local_port`: what the file holds afterwards. A file that cannot
   * be read is not written; a failed write leaves the file as it was.
   */
  function Stored(f: FileState, target: string, port: u16, write: Result<(), string>): (r: (FileState, Result<(), string>))
    ensures ReadUserInputs(f).Err? ==> r == (f, Err("Failed to read user inputs"))
    ensures ReadUserInputs(f).Ok? && write.Err? ==> r == (f, write)
    ensures ReadUserInputs(f).Ok? && write.Ok? ==> r == (Document(ReadUserInputs(f).value[target := port]), Ok(()))
  {
    match ReadUserInputs(f)
    case Err(_) => (f, Err("Failed to read user inputs"))
    case Ok(ports) => if write.Err? then (f, write) else (Document(ports[target := port]), Ok(()))
  }

  /** A stored port reads back, overwriting an earlier one, and every other target keeps its port. */
  lemma StoreThenGet(f: FileState, target: string, port: u16, other: string)
    requires ReadUserInputs(f).Ok?
    ensures var g := Stored(f, target, port, Ok(())).0;
      LocalPort(g, target) == Ok(Some(port)) && (other != target ==> LocalPort(g, other) == LocalPort(f, other))
  {
  }

  /** An unknown target has no port; a missing file knows no target. */
  lemma UnknownTargetHasNoPort(target: string)
    ensures LocalPort(Missing, target) == Ok(None)
    ensures LocalPort(EmptyFile, target) == Ok(None)
    ensures LocalPort(Document(map[]), target) == Ok(None)
  {
  }

  /** The store backed by a file path. */
  class UserInputsPath {
    var file: FileState

    constructor (file: FileState)
      ensures this.file == file
    {
      this.file := file;
    }

    /** `write` is the outcome of writing the file. */
    method StoreLocalPort(target: string, port: u16, write: Result<(), string>) returns (r: Result<(), string>)
      modifies this
      ensures (file, r) == Stored(old(file), target, port, write)
    {
      var userInputs := ReadUserInputs(file);
      if userInputs.Err? {
        return Err("Failed to read user inputs");
      }
      var ports := userInputs.value[target := port];
      if write.Err? {
        return write;
      }
      file := Document(ports);
      return Ok(());
    }

    function GetLocalPort(target: string): (r: Result<Option<u16>, string>)
      reads this
      ensures r == LocalPort(file, target)
    {
      LocalPort(file, target)
    }
  }

  /** The `Option` wrapper: without a store, storing does nothing and succeeds. */
  method StoreOptional(store: UserInputsPath?, target: string, port: u16, write: Result<(), string>) returns (r: Result<(), string>)
    modifies store
    ensures store == null ==> r == Ok(())
    ensures store != null ==> (store.file, r) == Stored(old(store.file), target, port, write)
  {
    if store != null {
      r := store.StoreLocalPort(target, port, write);
    } else {
      r := Ok(());
    }
  }

  /** The `Option` wrapper: without a store, no target has a port. */
  function GetOptional(store: UserInputsPath?, target: string): (r: Result<Option<u16>, string>)
    reads store
    ensures store == null ==> r == Ok(None)
    ensures store != null ==> r == LocalPort(store.file, target)
  {
    if store != null then store.GetLocalPort(target) else Ok(None)
  }

  /** Two targets stored one after the other into a fresh file both read back. */
  method StoreTwoPortsScenario() returns (first: Result<Option<u16>, string>, second: Result<Option<u16>, string>)
    ensures first == Ok(Some(8080)) && second == Ok(Some(8081))
  {
    var path := new UserInputsPath(EmptyFile);
    var _ := path.StoreLocalPort("target_id_1", 8080, Ok(()));
    var _ := path.StoreLocalPort("target_id_2", 8081, Ok(()));
    first := path.GetLocalPort("target_id_1");
    second := path.GetLocalPort("target_id_2");
  }
}
