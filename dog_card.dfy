/**
 * The heart button on a dog card: remove the dog's id when it is a favorite,
 * append the dog otherwise. This toggle, not the store, is what keeps the
 * favorites free of two entries with the same id.
 */
module DogCard {
  import opened Api
  import opened Storage
  import opened Favorites

  /** The favorites list after one press of the heart button. */
  function Toggled(favs: seq<Dog>, dog: Dog): (r: seq<Dog>)
    ensures IsMember(r, dog.id) <==> !IsMember(favs, dog.id)
  {
    MembershipAfterChange(favs, dog, dog.id, dog.id);
    if IsMember(favs, dog.id) then Removed(favs, dog.id) else Added(favs, dog)
  }

  /** No two entries share an id. */
  predicate UniqueIds(favs: seq<Dog>)
  {
    forall i, j :: 0 <= i < j < |favs| ==> favs[i].id != favs[j].id
  }

  /** Toggling a favorite removes every entry with its id and keeps the rest in order. */
  lemma ToggleRemovesMember(favs: seq<Dog>, dog: Dog)
    requires IsMember(favs, dog.id)
    ensures Toggled(favs, dog) == Removed(favs, dog.id)
    ensures !IsMember(Toggled(favs, dog), dog.id)
  {
    MembershipAfterChange(favs, dog, dog.id, dog.id);
  }

  /** Toggling a dog that is not a favorite appends it and it becomes one. */
  lemma ToggleAppendsNonMember(favs: seq<Dog>, dog: Dog)
    requires !IsMember(favs, dog.id)
    ensures Toggled(favs, dog) == favs + [dog]
    ensures IsMember(Toggled(favs, dog), dog.id)
  {
    MembershipAfterChange(favs, dog, dog.id, dog.id);
  }

  /** Two presses starting from a non-favorite give back the original list. */
  lemma ToggleTwiceRestores(favs: seq<Dog>, dog: Dog)
    requires !IsMember(favs, dog.id)
    ensures Toggled(Toggled(favs, dog), dog) == favs
  {
    MembershipAfterChange(favs, dog, dog.id, dog.id);
    AddThenRemoveRestores(favs, dog);
  }

  lemma UniqueTail(favs: seq<Dog>)
    requires favs != [] && UniqueIds(favs)
    ensures UniqueIds(favs[1..])
    ensures forall k :: 0 <= k < |favs| - 1 ==> favs[1..][k].id != favs[0].id
  {
    var tail := favs[1..];
    forall i, j | 0 <= i < j < |tail| ensures tail[i].id != tail[j].id {
      assert tail[i] == favs[i + 1] && tail[j] == favs[j + 1];
    }
  }

  lemma UniqueCons(d: Dog, rest: seq<Dog>)
    requires UniqueIds(rest)
    requires forall k :: 0 <= k < |rest| ==> rest[k].id != d.id
    ensures UniqueIds([d] + rest)
  {
    var r := [d] + rest;
    forall i, j | 0 <= i < j < |r| ensures r[i].id != r[j].id {
      assert r[j] == rest[j - 1];
      if i > 0 {
        assert r[i] == rest[i - 1];
      }
    }
  }

  /** Removal never introduces a repeated id. */
  lemma {:induction false} RemovedKeepsUniqueIds(favs: seq<Dog>, id: string)
    requires UniqueIds(favs)
    ensures UniqueIds(Removed(favs, id))
  {
    if favs != [] {
      var tail := favs[1..];
      UniqueTail(favs);
      RemovedKeepsUniqueIds(tail, id);
      var rest := Removed(tail, id);
      if favs[0].id != id {
        forall k | 0 <= k < |rest| ensures rest[k].id != favs[0].id {
          assert rest[k] in rest;
          var m :| 0 <= m < |tail| && tail[m] == rest[k];
        }
        UniqueCons(favs[0], rest);
        assert Removed(favs, id) == [favs[0]] + rest;
      } else {
        assert Removed(favs, id) == rest;
      }
    }
  }

  /** The toggle keeps "no two entries share an id". */
  lemma TogglePreservesUniqueIds(favs: seq<Dog>, dog: Dog)
    requires UniqueIds(favs)
    ensures UniqueIds(Toggled(favs, dog))
  {
    if IsMember(favs, dog.id) {
      RemovedKeepsUniqueIds(favs, dog.id);
    } else {
      var r := favs + [dog];
      forall i, j | 0 <= i < j < |r| ensures r[i].id != r[j].id {
        if j == |favs| {
          assert r[i] in favs;
        } else {
          assert r[i] == favs[i] && r[j] == favs[j];
        }
      }
    }
  }

  /** handleToggleFavorite over the shared store; the store rewrites storage as it changes. */
  method ToggleFavorite(provider: FavoritesProvider, dog: Dog)
    modifies provider, provider.storage
    ensures provider.favorites == Toggled(old(provider.favorites), dog)
    ensures provider.storage.entries == old(provider.storage.entries)[StorageKey := DogsValue(provider.favorites)]
  {
    var favorite := provider.IsFavorite(dog.id);
    assert favorite <==> IsMember(provider.favorites, dog.id) by {
      if IsMember(provider.favorites, dog.id) {
        var d :| d in provider.favorites && d.id == dog.id;
      }
    }
    if favorite {
      provider.RemoveFavorite(dog.id);
    } else {
      provider.AddFavorite(dog);
    }
  }
}
