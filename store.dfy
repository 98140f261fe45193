/**
 What the save and delete handlers do to the user collection, as functions of
 the collection before the click, and what they promise about it.
 */
module Store {
  import opened Records
  import opened Lookup

  /** The collection after saving profile `p` for id `id`: the first user with
      that id gets `p` as its editable fields; nothing else changes. */
  function Saved(users: seq<User>, id: Id, p: Profile): (r: seq<User>)
    ensures |r| == |users|
    ensures forall j {:trigger r[j]} :: 0 <= j < |users| ==> r[j].id == users[j].id && r[j].portfolio == users[j].portfolio
  {
    if users == [] then []
    else if users[0].id == id then [users[0].(profile := p)] + users[1..]
    else [users[0]] + Saved(users[1..], id, p)
  }

  /** The collection after deleting id `id`: the first user with that id is
      taken out; the others stay in their order. */
  function Removed(users: seq<User>, id: Id): (r: seq<User>)
    ensures |users| - 1 <= |r| <= |users|
    ensures forall j {:trigger r[j]} :: 0 <= j < |r| ==> r[j] in users
  {
    if users == [] then []
    else if users[0].id == id then users[1..]
    else [users[0]] + Removed(users[1..], id)
  }

  /** Saving a found id is the in-place update of the user at the found index. */
  lemma {:induction false} SavedAt(users: seq<User>, id: Id, p: Profile)
    requires FindIndex(users, id) != -1
    ensures Saved(users, id, p) == users[FindIndex(users, id) := users[FindIndex(users, id)].(profile := p)]
  {
    if users[0].id != id {
      SavedAt(users[1..], id, p);
    }
  }

  /** Saving an id that no user has changes nothing. */
  lemma {:induction false} SavedOnMiss(users: seq<User>, id: Id, p: Profile)
    requires FindIndex(users, id) == -1
    ensures Saved(users, id, p) == users
  {
    if users != [] {
      SavedOnMiss(users[1..], id, p);
    }
  }

  /** Saving overwrites exactly the editable fields of the first matching user:
      every id and every portfolio stays, every other user stays. */
  lemma SavedFields(users: seq<User>, id: Id, p: Profile)
    requires FindIndex(users, id) != -1
    ensures var r, i := Saved(users, id, p), FindIndex(users, id);
      && |r| == |users|
      && r[i] == User(users[i].id, p, users[i].portfolio)
      && forall j :: 0 <= j < |users| && j != i ==> r[j] == users[j]
  {
    SavedAt(users, id, p);
  }

  /** Saving keeps every id in its place, so every later lookup by id finds
      the same index as before. */
  lemma {:induction false} SavedKeepsIndex(users: seq<User>, id: Id, p: Profile, other: Id)
    ensures FindIndex(Saved(users, id, p), other) == FindIndex(users, other)
  {
    if users != [] {
      SavedKeepsIndex(users[1..], id, p, other);
      if users[0].id != id {
        assert Saved(users, id, p)[1..] == Saved(users[1..], id, p);
      } else {
        assert Saved(users, id, p)[1..] == users[1..];
      }
    }
  }

  /** Saving the same values twice leaves the collection as saving them once. */
  lemma {:induction false} SavedIdempotent(users: seq<User>, id: Id, p: Profile)
    ensures Saved(Saved(users, id, p), id, p) == Saved(users, id, p)
  {
    if users != [] && users[0].id != id {
      SavedIdempotent(users[1..], id, p);
    }
  }

  /** Deleting a found id is the splice of one element at the found index. */
  lemma {:induction false} RemovedAt(users: seq<User>, id: Id)
    requires FindIndex(users, id) != -1
    ensures Removed(users, id) == users[..FindIndex(users, id)] + users[FindIndex(users, id) + 1..]
  {
    var i := FindIndex(users, id);
    if i != 0 {
      var tail := users[1..];
      assert FindIndex(tail, id) == i - 1;
      RemovedAt(tail, id);
      assert Removed(users, id) == [users[0]] + (tail[..i - 1] + tail[i..]);
      assert tail[..i - 1] == users[1..i];
      assert tail[i..] == users[i + 1..];
      assert [users[0]] + users[1..i] == users[..i];
    }
  }

  /** Deleting an id that no user has changes nothing. */
  lemma {:induction false} RemovedOnMiss(users: seq<User>, id: Id)
    requires FindIndex(users, id) == -1
    ensures Removed(users, id) == users
  {
    if users != [] {
      RemovedOnMiss(users[1..], id);
    }
  }

  /** Deleting a found id removes exactly one user, the first match: the
      length drops by one, the users before it and after it keep their
      relative order, and no user is lost or added besides it. */
  lemma RemovedShape(users: seq<User>, id: Id)
    requires FindIndex(users, id) != -1
    ensures var r, i := Removed(users, id), FindIndex(users, id);
      && |r| == |users| - 1
      && (forall j :: 0 <= j < i ==> r[j] == users[j])
      && (forall j :: i <= j < |r| ==> r[j] == users[j + 1])
      && multiset(r) + multiset{users[i]} == multiset(users)
  {
    var i := FindIndex(users, id);
    RemovedAt(users, id);
    assert users == users[..i] + [users[i]] + users[i + 1..];
  }

  /** With unique ids, deleting an id leaves no user with that id and keeps the
      ids unique. */
  lemma RemovedUnique(users: seq<User>, id: Id)
    requires UniqueIds(users)
    ensures UniqueIds(Removed(users, id))
    ensures forall j :: 0 <= j < |Removed(users, id)| ==> Removed(users, id)[j].id != id
  {
    var i := FindIndex(users, id);
    if i == -1 {
      RemovedOnMiss(users, id);
    } else {
      RemovedShape(users, id);
      var r := Removed(users, id);
      forall j | 0 <= j < |r| ensures r[j].id != id {
        if j >= i { assert r[j] == users[j + 1]; }
      }
      forall a, b | 0 <= a < b < |r| ensures r[a].id != r[b].id {
        var a' := if a < i then a else a + 1;
        var b' := if b < i then b else b + 1;
        assert r[a] == users[a'] && r[b] == users[b'];
      }
    }
  }
}
