/**
 The three lookups the page performs: the index of the first user with a given
 id (used by save and delete), the first user with a given id (used by the
 user-list click), and the first stock with a given symbol (used by the View
 button).
 */
module Lookup {
  import opened Records

  /** The index of the first user whose id is `id`, or -1 when there is none. */
  function FindIndex(users: seq<User>, id: Id): (r: int)
    ensures -1 <= r < |users|
    ensures r == -1 <==> forall j :: 0 <= j < |users| ==> users[j].id != id
    ensures r != -1 ==> users[r].id == id && forall j :: 0 <= j < r ==> users[j].id != id
  {
    if users == [] then -1
    else if users[0].id == id then 0
    else
      var k := FindIndex(users[1..], id);
      assert forall j :: 1 <= j < |users| ==> users[j] == users[1..][j - 1];
      if k == -1 then -1 else k + 1
  }

  /** The first user whose id is `id`, or None when there is none. */
  function FindUser(users: seq<User>, id: Id): (r: Option<User>)
    ensures r.None? <==> forall j :: 0 <= j < |users| ==> users[j].id != id
    ensures r.Some? ==> exists i :: 0 <= i < |users| && users[i] == r.value && r.value.id == id
                                    && forall j :: 0 <= j < i ==> users[j].id != id
  {
    if users == [] then None
    else if users[0].id == id then Some(users[0])
    else
      var r := FindUser(users[1..], id);
      assert forall j :: 1 <= j < |users| ==> users[j] == users[1..][j - 1];
      r
  }

  /** The first stock whose symbol is exactly `symbol`, or None when there is none.
      Symbols are compared strictly (`===`), unlike user ids, which are compared
      loosely and are therefore normalised to one type. */
  function FindStock(stocks: seq<Stock>, symbol: string): (r: Option<Stock>)
    ensures r.None? <==> forall j :: 0 <= j < |stocks| ==> stocks[j].symbol != symbol
    ensures r.Some? ==> exists i :: 0 <= i < |stocks| && stocks[i] == r.value && r.value.symbol == symbol
                                    && forall j :: 0 <= j < i ==> stocks[j].symbol != symbol
  {
    if stocks == [] then None
    else if stocks[0].symbol == symbol then Some(stocks[0])
    else
      var r := FindStock(stocks[1..], symbol);
      assert forall j :: 1 <= j < |stocks| ==> stocks[j] == stocks[1..][j - 1];
      r
  }

  /** The user found by id is the one at the index found by id: the user the
      list click selects is the user that save overwrites and delete removes. */
  lemma {:induction false} FindUserAtFindIndex(users: seq<User>, id: Id)
    ensures FindIndex(users, id) == -1 ==> FindUser(users, id) == None
    ensures FindIndex(users, id) != -1 ==> FindUser(users, id) == Some(users[FindIndex(users, id)])
  {
    if users != [] && users[0].id != id {
      FindUserAtFindIndex(users[1..], id);
    }
  }

  /** No two users share an id. */
  ghost predicate UniqueIds(users: seq<User>) {
    forall i, j :: 0 <= i < j < |users| ==> users[i].id != users[j].id
  }

  /** With unique ids, looking up the id of the k-th user finds that user. */
  lemma UniqueIdsFindIndex(users: seq<User>, k: nat)
    requires UniqueIds(users) && k < |users|
    ensures FindIndex(users, users[k].id) == k
    ensures FindUser(users, users[k].id) == Some(users[k])
  {
    FindUserAtFindIndex(users, users[k].id);
  }
}
