/** src/services/clipboard.rs: `SharedClipboard`, a handle on one shared text cell (the
    `Arc<Mutex<String>>`). Clones copy the handle, not the cell. The operating-system
    clipboard is an oracle passed in: whether it can be opened, and what reading it gives. */
module Clipboard {
  import opened Wrappers

  /** The shared cell behind every clone. */
  class Cell {
    var text: string

    constructor(text: string)
      ensures this.text == text
    {
      this.text := text;
    }
  }

  /** What the system clipboard offers: it cannot be opened (with the reason), or it can and
      reading its text gives a result. */
  datatype SystemAccess = Unavailable(reason: string) | Available(read: Result<string, string>)

  const AccessFailedPrefix: string := "Failed to access system clipboard: "
  const ReadFailedPrefix: string := "Failed to get system clipboard: "

  class SharedClipboard {
    const data: Cell

    /** `SharedClipboard::new`: a fresh cell holding the empty text. */
    constructor()
      ensures fresh(data) && data.text == ""
    {
      data := new Cell("");
    }

    /** `Clone`: a new handle on the same cell. */
    method Clone() returns (c: SharedClipboard)
      ensures fresh(c) && c.data == data
    {
      c := new SharedClipboard.Share(data);
    }

    constructor Share(cell: Cell)
      ensures data == cell
    {
      data := cell;
    }

    /** `set`: the cell takes the text and the result is `Ok`, whatever happens to the
        system clipboard (writing to it is not modelled). */
    method Set(text: string) returns (r: Result<Unit, string>)
      modifies data
      ensures r == Ok(Unit) && data.text == text
    {
      data.text := text;
      r := Ok(Unit);
    }

    /** `get`: the cell's text; nothing changes. */
    method Get() returns (r: Result<string, string>)
      ensures r == Ok(data.text)
    {
      r := Ok(data.text);
    }

    /** `get_from_system`: the system text, or an error naming the step that failed. */
    method GetFromSystem(system: SystemAccess) returns (r: Result<string, string>)
      ensures r.Ok? <==> system.Available? && system.read.Ok?
      ensures r.Ok? ==> r.value == system.read.value
      ensures system.Unavailable? ==> r == Err(AccessFailedPrefix + system.reason)
      ensures system.Available? && system.read.Err? ==> r == Err(ReadFailedPrefix + system.read.error)
    {
      match system
      case Unavailable(reason) =>
        r := Err(AccessFailedPrefix + reason);
      case Available(read) =>
        match read
        case Ok(text) => r := Ok(text);
        case Err(e) => r := Err(ReadFailedPrefix + e);
    }

    /** `sync_from_system`: on success the cell takes the system text; on failure the error
        is returned and the cell keeps its text. */
    method SyncFromSystem(system: SystemAccess) returns (r: Result<Unit, string>)
      modifies data
      ensures system.Available? && system.read.Ok? ==> r == Ok(Unit) && data.text == system.read.value
      ensures system.Unavailable? ==> r == Err(AccessFailedPrefix + system.reason) && data.text == old(data.text)
      ensures system.Available? && system.read.Err? ==>
        r == Err(ReadFailedPrefix + system.read.error) && data.text == old(data.text)
    {
      var got := GetFromSystem(system);
      match got
      case Ok(text) =>
        r := Set(text);
      case Err(e) =>
        r := Err(e);
    }
  }

  /** `Default` is `new`. */
  method Default() returns (c: SharedClipboard)
    ensures fresh(c) && fresh(c.data) && c.data.text == ""
  {
    c := new SharedClipboard();
  }

  /** A new clipboard reads back as empty. */
  method NewIsEmpty() returns (r: Result<string, string>)
    ensures r == Ok("")
  {
    var c := new SharedClipboard();
    r := c.Get();
  }

  /** What is set is what is read back, and reading twice gives the same text. */
  method SetThenGet(c: SharedClipboard, text: string) returns (first: Result<string, string>, second: Result<string, string>)
    modifies c.data
    ensures first == Ok(text) && second == Ok(text)
  {
    var _ := c.Set(text);
    first := c.Get();
    second := c.Get();
  }

  /** A text set through a clone is read through the original, and the other way round. */
  method ClonesShare(c: SharedClipboard, t: string, u: string) returns (seenByOriginal: Result<string, string>, seenByClone: Result<string, string>)
    modifies c.data
    ensures seenByOriginal == Ok(t) && seenByClone == Ok(u)
  {
    var d := c.Clone();
    var _ := d.Set(t);
    seenByOriginal := c.Get();
    var _ := c.Set(u);
    seenByClone := d.Get();
  }
}
