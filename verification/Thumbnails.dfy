/** The thumbnail cache: bounded by bytes, evicting arbitrary entries. */
module Thumbnails {
  datatype Entry = Entry(data: seq<int>, mime: string)

  type Entries = map<string, Entry>

  const CAPACITY := 0x200_0000
  const LARGEST := 0x10_0000

  /** The stored bytes of all entries. */
  ghost function Bytes(entries: Entries): nat {
    if entries == map[] then 0
    else
      var k :| k in entries;
      |entries[k].data| + Bytes(entries - {k})
  }

  /** Whichever entry is taken out, the rest weighs that much less. */
  lemma {:induction false} BytesWithout(entries: Entries, key: string)
    requires key in entries
    ensures Bytes(entries) == |entries[key].data| + Bytes(entries - {key})
    decreases |entries|
  {
    var k :| k in entries && Bytes(entries) == |entries[k].data| + Bytes(entries - {k});
    if k != key {
      assert (entries - {k}).Keys == entries.Keys - {k} && (entries - {key}).Keys == entries.Keys - {key};
      BytesWithout(entries - {k}, key);
      BytesWithout(entries - {key}, k);
      assert entries - {k} - {key} == entries - {key} - {k};
    }
  }

  lemma {:induction false} BytesWith(entries: Entries, key: string, e: Entry)
    ensures Bytes(entries[key := e]) == |e.data| + Bytes(entries - {key})
  {
    BytesWithout(entries[key := e], key);
    assert entries[key := e] - {key} == entries - {key};
  }

  class ThumbnailCache {
    var entries: Entries
    var size: int

    /** size counts the stored bytes and stays within the capacity. */
    ghost predicate Valid()
      reads this
    {
      size == Bytes(entries) && size <= CAPACITY
    }

    constructor ()
      ensures Valid() && entries == map[]
    {
      entries, size := map[], 0;
    }

    /** Evicts arbitrary entries until n more bytes fit. The loop ends because something that large must be stored. */
    method MakeRoom(n: nat)
      requires Valid() && n <= LARGEST
      modifies this
      ensures Valid() && size + n <= CAPACITY
      ensures forall k :: k in entries ==> k in old(entries) && entries[k] == old(entries)[k]
      ensures old(size) + n <= CAPACITY ==> entries == old(entries)
    {
      while size + n > CAPACITY
        invariant Valid()
        invariant forall k :: k in entries ==> k in old(entries) && entries[k] == old(entries)[k]
        invariant old(size) + n <= CAPACITY ==> entries == old(entries)
        decreases |entries|
      {
        var key :| key in entries;
        BytesWithout(entries, key);
        var left := entries - {key};
        assert left.Keys == entries.Keys - {key};
        size := size - |entries[key].data|;
        entries := left;
      }
    }

    /** Storing a rendered thumbnail; an empty key or one over a megabyte is not stored. */
    method Store(key: string, e: Entry)
      requires Valid()
      modifies this
      ensures Valid() && size <= 33_554_432
      ensures key == "" || |e.data| > 1_048_576 ==> entries == old(entries) && size == old(size)
      ensures key != "" && |e.data| <= 1_048_576 ==> key in entries && entries[key] == e
      ensures forall k :: k in entries && k != key ==> k in old(entries) && entries[k] == old(entries)[k]
      ensures key != "" && old(size) + |e.data| <= 33_554_432 && |e.data| <= 1_048_576 ==> entries == old(entries)[key := e]
    {
      if key == "" || |e.data| > LARGEST { return; }
      MakeRoom(|e.data|);
      BytesWith(entries, key, e);
      if key in entries {
        BytesWithout(entries, key);
        size := size - |entries[key].data|;
      } else {
        assert entries - {key} == entries;
      }
      entries := entries[key := e];
      size := size + |e.data|;
    }
  }
}
