/** The wishlist table: rows pairing a user with a saved product. */
module Wishlist {
  import opened Models

  function WishKey(w: WishlistItem): (UserId, nat)
  {
    (w.user, w.product.id)
  }

  /** No (user, product) pair is saved twice. */
  predicate UniqueWishKeys(rows: seq<WishlistItem>)
  {
    forall i, j :: 0 <= i < j < |rows| ==> WishKey(rows[i]) != WishKey(rows[j])
  }

  predicate WishIdsAscending(rows: seq<WishlistItem>)
  {
    forall i, j :: 0 <= i < j < |rows| ==> rows[i].id < rows[j].id
  }

  /** The set of saved (user, product id) pairs. */
  function Saved(rows: seq<WishlistItem>): set<(UserId, nat)>
  {
    set w | w in rows :: WishKey(w)
  }

  /** The index of the row for `key`, the lookup of `get_or_create`. */
  function FindWish(rows: seq<WishlistItem>, key: (UserId, nat)): (r: Option<nat>)
    ensures r.Some? ==> r.value < |rows| && WishKey(rows[r.value]) == key
    ensures r.None? ==> key !in Saved(rows)
  {
    if rows == [] then None
    else if WishKey(rows[0]) == key then Some(0)
    else match FindWish(rows[1..], key)
      case None => None
      case Some(j) => Some(j + 1)
  }

  /** The index of the row with this id owned by `u`, if there is one. */
  function FindOwnedWish(rows: seq<WishlistItem>, id: nat, u: UserId): (r: Option<nat>)
    ensures r.Some? ==> r.value < |rows| && rows[r.value].id == id && rows[r.value].user == u
    ensures r.None? ==> forall j :: 0 <= j < |rows| ==> !(rows[j].id == id && rows[j].user == u)
  {
    if rows == [] then None
    else if rows[0].id == id && rows[0].user == u then Some(0)
    else match FindOwnedWish(rows[1..], id, u)
      case None => None
      case Some(j) => Some(j + 1)
  }

  /** `Wishlist.objects.filter(id=id, user=u).delete()`: the rows that survive the delete. */
  function Unmatched(rows: seq<WishlistItem>, id: nat, u: UserId): (r: seq<WishlistItem>)
    ensures forall w :: w in r <==> w in rows && !(w.id == id && w.user == u)
  {
    if rows == [] then []
    else (if rows[0].id == id && rows[0].user == u then [] else [rows[0]]) + Unmatched(rows[1..], id, u)
  }

  /** When no row matches both the id and the user, the delete removes nothing. */
  lemma {:induction false} UnmatchedWhenAbsent(rows: seq<WishlistItem>, id: nat, u: UserId)
    requires FindOwnedWish(rows, id, u).None?
    ensures Unmatched(rows, id, u) == rows
  {
    if rows != [] {
      UnmatchedWhenAbsent(rows[1..], id, u);
    }
  }

  /** The rows after the first keep their ids ascending, all above the first row's id. */
  lemma WishIdsAscendingTail(rows: seq<WishlistItem>)
    requires WishIdsAscending(rows) && rows != []
    ensures WishIdsAscending(rows[1..])
    ensures forall j :: 0 <= j < |rows[1..]| ==> rows[0].id < rows[1..][j].id
  {
    var tail := rows[1..];
    forall i, j | 0 <= i < j < |tail| ensures tail[i].id < tail[j].id {
      assert tail[i] == rows[i + 1] && tail[j] == rows[j + 1];
    }
    forall j | 0 <= j < |tail| ensures rows[0].id < tail[j].id {
      assert tail[j] == rows[j + 1];
    }
  }

  /** Since ids are unique, the delete removes exactly the one matching row. */
  lemma {:induction false} UnmatchedWhenFound(rows: seq<WishlistItem>, id: nat, u: UserId)
    requires WishIdsAscending(rows) && FindOwnedWish(rows, id, u).Some?
    ensures var i := FindOwnedWish(rows, id, u).value; Unmatched(rows, id, u) == rows[..i] + rows[i + 1..]
  {
    var tail := rows[1..];
    WishIdsAscendingTail(rows);
    if rows[0].id == id && rows[0].user == u {
      UnmatchedWhenAbsent(tail, id, u);
      assert rows[..0] + rows[1..] == tail;
    } else {
      UnmatchedWhenFound(tail, id, u);
      var j := FindOwnedWish(tail, id, u).value;
      assert FindOwnedWish(rows, id, u).value == j + 1;
      DeleteAfterHead(rows, j + 1);
    }
  }

  /** Deleting one row keeps the table's ids ascending and its pairs unique. */
  lemma WishDeleteKeepsShape(rows: seq<WishlistItem>, i: nat)
    requires i < |rows|
    ensures WishIdsAscending(rows) ==> WishIdsAscending(rows[..i] + rows[i + 1..])
    ensures UniqueWishKeys(rows) ==> UniqueWishKeys(rows[..i] + rows[i + 1..])
  {
    var r := rows[..i] + rows[i + 1..];
    assert forall j :: 0 <= j < |r| ==> r[j] == if j < i then rows[j] else rows[j + 1];
  }

  /** Deleting row `i` takes exactly its pair out of the saved set. */
  lemma SavedAfterDelete(rows: seq<WishlistItem>, i: nat)
    requires UniqueWishKeys(rows) && i < |rows|
    ensures Saved(rows[..i] + rows[i + 1..]) == Saved(rows) - {WishKey(rows[i])}
  {
    var rows' := rows[..i] + rows[i + 1..];
    forall k | k in Saved(rows) - {WishKey(rows[i])} ensures k in Saved(rows') {
      var w :| w in rows && WishKey(w) == k;
      var j :| 0 <= j < |rows| && rows[j] == w;
      assert j != i;
      if j < i { assert rows'[j] == w; } else { assert rows'[j - 1] == w; }
    }
    forall k | k in Saved(rows') ensures k in Saved(rows) - {WishKey(rows[i])} {
      var w :| w in rows' && WishKey(w) == k;
      var j :| 0 <= j < |rows'| && rows'[j] == w;
      if j < i { assert rows[j] == w; } else { assert rows[j + 1] == w; }
    }
  }

  /** `Wishlist.objects.filter(user=u)`: the rows of user `u`, in table order. */
  function WishesOf(rows: seq<WishlistItem>, u: UserId): (r: seq<WishlistItem>)
    ensures forall w :: w in r <==> w in rows && w.user == u
  {
    if rows == [] then []
    else (if rows[0].user == u then [rows[0]] else []) + WishesOf(rows[1..], u)
  }
}
