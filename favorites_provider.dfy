/**
 * The favorites store: an ordered list of dogs, rehydrated from storage on
 * start, changed by append and by remove-by-id, and written back to storage
 * in full after every change. Adding does not look for an existing entry with
 * the same id; only the card's toggle keeps the list free of duplicates.
 */
module Favorites {
  import opened Api
  import opened Storage

  /** The storage key the favorites list is written under. */
  const StorageKey: string := "buddy_favorites"

  /** isFavorite: some entry carries this id. */
  predicate IsMember(favs: seq<Dog>, id: string): (b: bool)
    ensures b <==> exists i :: 0 <= i < |favs| && favs[i].id == id
  {
    exists d :: d in favs && d.id == id
  }

  /** addFavorite: the dog goes at the end, whatever the list holds already. */
  function Added(favs: seq<Dog>, dog: Dog): (r: seq<Dog>)
    ensures |r| == |favs| + 1
    ensures r[..|favs|] == favs && r[|favs|] == dog
  {
    favs + [dog]
  }

  /** removeFavorite: keep the entries whose id differs, in their order. */
  function Removed(favs: seq<Dog>, id: string): (r: seq<Dog>)
    ensures forall d {:trigger d in r} :: d in r <==> d in favs && d.id != id
    ensures |r| <= |favs|
  {
    if favs == [] then []
    else (if favs[0].id == id then [] else [favs[0]]) + Removed(favs[1..], id)
  }

  /** The list the provider starts from: the stored list if there is one, otherwise empty. */
  function InitialFavorites(entries: map<string, Stored>): (r: seq<Dog>)
    ensures StorageKey in entries && entries[StorageKey].DogsValue? ==> r == entries[StorageKey].dogs
    ensures StorageKey !in entries ==> r == []
  {
    if StorageKey in entries && entries[StorageKey].DogsValue? then entries[StorageKey].dogs else []
  }

  /** Removal keeps every other dog exactly as often as it occurred and drops the id entirely. */
  lemma {:induction false} RemovedCounts(favs: seq<Dog>, id: string, d: Dog)
    ensures multiset(Removed(favs, id))[d] == if d.id == id then 0 else multiset(favs)[d]
  {
    if favs != [] {
      RemovedCounts(favs[1..], id, d);
      var rest := Removed(favs[1..], id);
      assert multiset(favs) == multiset{favs[0]} + multiset(favs[1..]) by {
        assert favs == [favs[0]] + favs[1..];
      }
      if favs[0].id == id {
        assert Removed(favs, id) == rest;
      } else {
        assert multiset(Removed(favs, id)) == multiset{favs[0]} + multiset(rest) by {
          assert Removed(favs, id) == [favs[0]] + rest;
        }
      }
    }
  }

  /** Removal distributes over concatenation, so survivors keep their relative order. */
  lemma {:induction false} RemovedConcat(a: seq<Dog>, b: seq<Dog>, id: string)
    ensures Removed(a + b, id) == Removed(a, id) + Removed(b, id)
  {
    if a == [] {
      assert a + b == b;
    } else {
      var head := if a[0].id == id then [] else [a[0]];
      assert Removed(a + b, id) == head + Removed(a[1..] + b, id) by {
        assert (a + b)[0] == a[0] && (a + b)[1..] == a[1..] + b;
      }
      RemovedConcat(a[1..], b, id);
      assert Removed(a, id) == head + Removed(a[1..], id);
    }
  }

  /** Removing an id that no entry carries leaves the list as it was. */
  lemma {:induction false} RemoveAbsentIsIdentity(favs: seq<Dog>, id: string)
    requires !IsMember(favs, id)
    ensures Removed(favs, id) == favs
  {
    if favs != [] {
      assert favs[0] in favs;
      assert !IsMember(favs[1..], id) by {
        forall d | d in favs[1..] ensures d.id != id {
          assert d in favs;
        }
      }
      RemoveAbsentIsIdentity(favs[1..], id);
    }
  }

  /** Membership after each change: present after add, absent after remove, others unaffected by remove. */
  lemma MembershipAfterChange(favs: seq<Dog>, dog: Dog, id: string, other: string)
    ensures IsMember(Added(favs, dog), dog.id)
    ensures !IsMember(Removed(favs, id), id)
    ensures other != id ==> (IsMember(Removed(favs, id), other) <==> IsMember(favs, other))
    ensures IsMember(Added(favs, dog), other) <==> IsMember(favs, other) || dog.id == other
  {
    assert dog in Added(favs, dog);
    if other != id && IsMember(favs, other) {
      var d :| d in favs && d.id == other;
      assert d in Removed(favs, id);
    }
    if IsMember(Added(favs, dog), other) && dog.id != other {
      var d :| d in Added(favs, dog) && d.id == other;
      assert d in favs;
    }
    if IsMember(favs, other) {
      var d :| d in favs && d.id == other;
      assert d in Added(favs, dog);
    }
  }

  /** Adding appends and keeps the earlier entries; an id already present is added a second time. */
  lemma AddAppendsWithoutDedupe(favs: seq<Dog>, dog: Dog)
    ensures |Added(favs, dog)| == |favs| + 1
    ensures Added(favs, dog)[..|favs|] == favs && Added(favs, dog)[|favs|] == dog
    ensures multiset(Added(favs, dog))[dog] == multiset(favs)[dog] + 1
  {
  }

  /** Adding a dog whose id is absent and then removing that id gives back the original list. */
  lemma AddThenRemoveRestores(favs: seq<Dog>, dog: Dog)
    requires !IsMember(favs, dog.id)
    ensures Removed(Added(favs, dog), dog.id) == favs
  {
    RemovedConcat(favs, [dog], dog.id);
    RemoveAbsentIsIdentity(favs, dog.id);
    assert Removed([dog], dog.id) == [];
  }

  /**
   * The provider: the favorites list, and the storage it keeps in step.
   * `Synced` is the effect that rewrites the stored list after every change.
   */
  class FavoritesProvider {
    var favorites: seq<Dog>
    const storage: LocalStorage

    ghost predicate Synced()
      reads this, storage
    {
      StorageKey in storage.entries && storage.entries[StorageKey] == DogsValue(favorites)
    }

    /** Mount: rehydrate from storage, then the effect writes the list back. */
    constructor (store: LocalStorage)
      modifies store
      ensures storage == store
      ensures favorites == InitialFavorites(old(store.entries))
      ensures store.entries == old(store.entries)[StorageKey := DogsValue(favorites)]
      ensures Synced()
    {
      storage := store;
      var stored := store.GetItem(StorageKey);
      favorites := if stored.Some? && stored.value.DogsValue? then stored.value.dogs else [];
      new;
      SyncStorage();
    }

    /** The storage effect: serialise the whole list under the favorites key. */
    method SyncStorage()
      modifies storage
      ensures storage.entries == old(storage.entries)[StorageKey := DogsValue(favorites)]
      ensures Synced()
    {
      storage.SetItem(StorageKey, DogsValue(favorites));
    }

    method AddFavorite(dog: Dog)
      modifies this, storage
      ensures favorites == Added(old(favorites), dog)
      ensures storage.entries == old(storage.entries)[StorageKey := DogsValue(favorites)]
      ensures Synced()
    {
      favorites := favorites + [dog];
      SyncStorage();
    }

    method RemoveFavorite(id: string)
      modifies this, storage
      ensures favorites == Removed(old(favorites), id)
      ensures storage.entries == old(storage.entries)[StorageKey := DogsValue(favorites)]
      ensures Synced()
    {
      favorites := Removed(favorites, id);
      SyncStorage();
    }

    method IsFavorite(id: string) returns (b: bool)
      ensures b <==> exists i :: 0 <= i < |favorites| && favorites[i].id == id
    {
      b := IsMember(favorites, id);
      if b {
        var d :| d in favorites && d.id == id;
        var i :| 0 <= i < |favorites| && favorites[i] == d;
      }
    }
  }
}
