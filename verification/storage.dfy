/** The device storage both screens read and write, and the per-screen
    state that mirrors it. Storage is a key-value store; the app uses the
    one key "menuItems", whose content is modelled here directly. */
module Storage {
  import opened MenuTypes

  /** The content of the "menuItems" key: nothing stored, the empty string,
      the serialized form of a list of items, or text that does not parse
      as such a list. */
  datatype Slot = Absent | EmptyText | Holds(items: seq<MenuItem>) | Garbled

  /** Whether the stored text counts as present in the screens' `if`
      tests: JavaScript treats both a missing value and the empty string as
      false, and every other string as true. */
  predicate Truthy(s: Slot) {
    s.Holds? || s.Garbled?
  }

  /** Whether the storage read and the storage write of one operation
      succeed. */
  datatype Io = Io(readOk: bool, writeOk: bool)

  /** The slot after writing `items` to it: the new list if the write
      succeeded, the old content otherwise. */
  function Write(s: Slot, items: seq<MenuItem>, ok: bool): (r: Slot)
  {
    if ok then Holds(items) else s
  }

  /** What one screen holds: its own in-memory copy of the list, and the
      storage it shares with the other screen. */
  datatype Screen = Screen(items: seq<MenuItem>, store: Slot)
}
