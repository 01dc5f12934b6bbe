/**
 * The browser's key-value storage, as the two providers use it. Values are
 * kept in the shape the program serialises them from: JSON encoding and
 * decoding are taken to be inverse, and the expiry timestamp, written as a
 * decimal string and read back with parseInt, is kept as an integer.
 */
module Storage {
  import opened Api

  /** What the program writes under its keys. */
  datatype Stored =
    | UserValue(user: User)
    | ExpiryValue(ms: int)
    | DogsValue(dogs: seq<Dog>)

  class LocalStorage {
    var entries: map<string, Stored>

    constructor (initial: map<string, Stored>)
      ensures entries == initial
    {
      entries := initial;
    }

    /** getItem: the stored value, or None when the key is absent. */
    method GetItem(key: string) returns (v: Option<Stored>)
      ensures v.Some? <==> key in entries
      ensures v.Some? ==> v.value == entries[key]
    {
      v := if key in entries then Some(entries[key]) else None;
    }

    /** setItem: overwrite one key, leave the others. */
    method SetItem(key: string, v: Stored)
      modifies this
      ensures entries == old(entries)[key := v]
    {
      entries := entries[key := v];
    }

    /** removeItem: drop one key (a no-op when it is absent), leave the others. */
    method RemoveItem(key: string)
      modifies this
      ensures entries == old(entries) - {key}
    {
      entries := entries - {key};
    }
  }
}
