/** The cart table as a ledger: the rows of all users, each a (user, product)
    pair with a quantity, and the sums the cart and checkout pages show. */
module Ledger {
  import opened Models

  /** The (user, product id) pair a cart or wishlist row is unique on. */
  type Key = (UserId, nat)

  function KeyOf(item: CartItem): Key
  {
    (item.user, item.product.id)
  }

  /** No two cart rows share a (user, product) pair. */
  predicate UniqueKeys(rows: seq<CartItem>)
  {
    forall i, j :: 0 <= i < j < |rows| ==> KeyOf(rows[i]) != KeyOf(rows[j])
  }

  /** Every row that exists has a positive quantity. */
  predicate PositiveQuantities(rows: seq<CartItem>)
  {
    forall item :: item in rows ==> item.quantity >= 1
  }

  predicate CartIdsAscending(rows: seq<CartItem>)
  {
    forall i, j :: 0 <= i < j < |rows| ==> rows[i].id < rows[j].id
  }

  /** `CartItem.objects.filter(user=u)`: the rows of user `u`, in table order. */
  function OwnedBy(rows: seq<CartItem>, u: UserId): (r: seq<CartItem>)
    ensures forall item :: item in r <==> item in rows && item.user == u
    ensures |r| <= |rows|
  {
    if rows == [] then []
    else (if rows[0].user == u then [rows[0]] else []) + OwnedBy(rows[1..], u)
  }

  /** The rows of every user other than `u`, in table order. */
  function NotOwnedBy(rows: seq<CartItem>, u: UserId): (r: seq<CartItem>)
    ensures forall item :: item in r <==> item in rows && item.user != u
    ensures |r| <= |rows|
  {
    if rows == [] then []
    else (if rows[0].user != u then [rows[0]] else []) + NotOwnedBy(rows[1..], u)
  }

  /** `sum(item.product.price * item.quantity for item in items)`, the cart page's total. */
  function CartSum(rows: seq<CartItem>): int
  {
    if rows == [] then 0 else rows[0].product.price * rows[0].quantity + CartSum(rows[1..])
  }

  /** `sum(item.total_price() for item in items)`, the checkout page's and the order's total. */
  function CheckoutSum(rows: seq<CartItem>): int
  {
    if rows == [] then 0 else TotalPrice(rows[0]) + CheckoutSum(rows[1..])
  }

  /** The two ways the source spells the total agree on every list of rows. */
  lemma {:induction false} CartSumIsCheckoutSum(rows: seq<CartItem>)
    ensures CartSum(rows) == CheckoutSum(rows)
  {
    if rows != [] {
      CartSumIsCheckoutSum(rows[1..]);
    }
  }

  lemma {:induction false} CartSumAppend(a: seq<CartItem>, b: seq<CartItem>)
    ensures CartSum(a + b) == CartSum(a) + CartSum(b)
  {
    if a == [] {
      assert a + b == b;
    } else {
      assert (a + b)[1..] == a[1..] + b;
      CartSumAppend(a[1..], b);
    }
  }

  /** Row `j`'s line total plus the total of the other rows is the whole total. */
  lemma CartSumWithout(b: seq<CartItem>, j: nat)
    requires j < |b|
    ensures CartSum(b) == b[j].product.price * b[j].quantity + CartSum(b[..j] + b[j + 1..])
  {
    assert b == b[..j] + ([b[j]] + b[j + 1..]);
    CartSumAppend(b[..j], [b[j]] + b[j + 1..]);
    CartSumAppend([b[j]], b[j + 1..]);
    CartSumAppend(b[..j], b[j + 1..]);
  }

  /** Taking position `j` out of a sequence takes one copy of its element out of the multiset. */
  lemma MultisetWithout<T>(b: seq<T>, j: nat)
    requires j < |b|
    ensures multiset(b[..j] + b[j + 1..]) == multiset(b) - multiset{b[j]}
  {
    assert b == b[..j] + ([b[j]] + b[j + 1..]);
  }

  /** The first element of `a` sits at some position `j` of its permutation `b`,
      and what is left on both sides are again permutations of each other. */
  lemma MatchFirst<T>(a: seq<T>, b: seq<T>) returns (j: nat)
    requires a != [] && multiset(a) == multiset(b)
    ensures j < |b| && b[j] == a[0]
    ensures multiset(a[1..]) == multiset(b[..j] + b[j + 1..])
  {
    assert a[0] in multiset(b);
    j :| 0 <= j < |b| && b[j] == a[0];
    assert a == [a[0]] + a[1..];
    assert multiset(a[1..]) == multiset(a) - multiset{a[0]};
    MultisetWithout(b, j);
  }

  /** The total does not depend on the order in which the rows are listed. */
  lemma {:induction false} CartSumPermutation(a: seq<CartItem>, b: seq<CartItem>)
    requires multiset(a) == multiset(b)
    ensures CartSum(a) == CartSum(b)
  {
    if a == [] {
      assert |b| == |multiset(b)| == 0;
    } else {
      var j := MatchFirst(a, b);
      CartSumPermutation(a[1..], b[..j] + b[j + 1..]);
      CartSumWithout(b, j);
    }
  }

  /** With positive quantities, the total is at least the price of every row's product. */
  lemma {:induction false} CartSumBounds(rows: seq<CartItem>)
    requires PositiveQuantities(rows)
    ensures CartSum(rows) >= 0
    ensures forall item :: item in rows ==> CartSum(rows) >= item.product.price
  {
    if rows != [] {
      CartSumBounds(rows[1..]);
      assert rows[0].quantity >= 1;
      assert rows[0].product.price * rows[0].quantity >= rows[0].product.price;
    }
  }

  /** Splitting the table by owner splits its total. */
  lemma {:induction false} CartSumSplitsByOwner(rows: seq<CartItem>, u: UserId)
    ensures CartSum(rows) == CartSum(OwnedBy(rows, u)) + CartSum(NotOwnedBy(rows, u))
  {
    if rows != [] {
      CartSumSplitsByOwner(rows[1..], u);
      CartSumAppend(if rows[0].user == u then [rows[0]] else [], OwnedBy(rows[1..], u));
      CartSumAppend(if rows[0].user != u then [rows[0]] else [], NotOwnedBy(rows[1..], u));
    }
  }

  /** Clearing user `u`'s rows leaves `u` with nothing and every other user with exactly their rows. */
  lemma {:induction false} NotOwnedByClears(rows: seq<CartItem>, u: UserId, v: UserId)
    ensures OwnedBy(NotOwnedBy(rows, u), u) == []
    ensures v != u ==> OwnedBy(NotOwnedBy(rows, u), v) == OwnedBy(rows, v)
  {
    if rows != [] {
      NotOwnedByClears(rows[1..], u, v);
      var head := if rows[0].user != u then [rows[0]] else [];
      assert NotOwnedBy(rows, u) == head + NotOwnedBy(rows[1..], u);
      OwnedByAppend(head, NotOwnedBy(rows[1..], u), u);
      OwnedByAppend(head, NotOwnedBy(rows[1..], u), v);
    }
  }

  /** The rows after the first of an ascending table are ascending and all above the first. */
  lemma CartIdsAscendingTail(rows: seq<CartItem>)
    requires rows != [] && CartIdsAscending(rows)
    ensures CartIdsAscending(rows[1..])
    ensures forall x :: x in rows[1..] ==> rows[0].id < x.id
  {
    var tail := rows[1..];
    forall i, j | 0 <= i < j < |tail| ensures tail[i].id < tail[j].id {
      assert tail[i] == rows[i + 1] && tail[j] == rows[j + 1];
    }
    forall x | x in tail ensures rows[0].id < x.id {
      var k :| 0 <= k < |tail| && tail[k] == x;
      assert tail[k] == rows[k + 1];
    }
  }

  /** A row below every row of an ascending table can go in front of it. */
  lemma CartIdsAscendingCons(x: CartItem, rest: seq<CartItem>)
    requires CartIdsAscending(rest)
    requires forall y :: y in rest ==> x.id < y.id
    ensures CartIdsAscending([x] + rest)
  {
    var r := [x] + rest;
    forall i, j | 0 <= i < j < |r| ensures r[i].id < r[j].id {
      assert r[j] == rest[j - 1] && rest[j - 1] in rest;
      if i > 0 { assert r[i] == rest[i - 1]; }
    }
  }

  /** Clearing one user's rows keeps the table's ids ascending. */
  lemma {:induction false} NotOwnedByKeepsIdsAscending(rows: seq<CartItem>, u: UserId)
    requires CartIdsAscending(rows)
    ensures CartIdsAscending(NotOwnedBy(rows, u))
  {
    if rows != [] {
      CartIdsAscendingTail(rows);
      NotOwnedByKeepsIdsAscending(rows[1..], u);
      var rest := NotOwnedBy(rows[1..], u);
      if rows[0].user != u {
        assert NotOwnedBy(rows, u) == [rows[0]] + rest;
        CartIdsAscendingCons(rows[0], rest);
      } else {
        assert NotOwnedBy(rows, u) == rest;
      }
    }
  }

  /** Clearing one user's rows keeps the (user, product) pairs unique. */
  lemma {:induction false} NotOwnedByKeepsKeysUnique(rows: seq<CartItem>, u: UserId)
    requires UniqueKeys(rows)
    ensures UniqueKeys(NotOwnedBy(rows, u))
  {
    if rows != [] {
      var tail := rows[1..];
      assert UniqueKeys(tail) by {
        forall i, j | 0 <= i < j < |tail| ensures KeyOf(tail[i]) != KeyOf(tail[j]) {
          assert tail[i] == rows[i + 1] && tail[j] == rows[j + 1];
        }
      }
      NotOwnedByKeepsKeysUnique(tail, u);
      var rest := NotOwnedBy(tail, u);
      if rows[0].user != u {
        var r := [rows[0]] + rest;
        forall i, j | 0 <= i < j < |r| ensures KeyOf(r[i]) != KeyOf(r[j]) {
          assert r[j] == rest[j - 1] && rest[j - 1] in tail;
          if i > 0 { assert r[i] == rest[i - 1]; }
        }
      }
    }
  }

  /** Deleting one row keeps the table's ids ascending and its pairs unique. */
  lemma DeleteKeepsShape(rows: seq<CartItem>, i: nat)
    requires i < |rows|
    ensures CartIdsAscending(rows) ==> CartIdsAscending(rows[..i] + rows[i + 1..])
    ensures UniqueKeys(rows) ==> UniqueKeys(rows[..i] + rows[i + 1..])
  {
    var r := rows[..i] + rows[i + 1..];
    assert forall j :: 0 <= j < |r| ==> r[j] == if j < i then rows[j] else rows[j + 1];
  }

  lemma {:induction false} OwnedByAppend(a: seq<CartItem>, b: seq<CartItem>, u: UserId)
    ensures OwnedBy(a + b, u) == OwnedBy(a, u) + OwnedBy(b, u)
  {
    if a == [] {
      assert a + b == b;
    } else {
      assert (a + b)[1..] == a[1..] + b;
      OwnedByAppend(a[1..], b, u);
    }
  }

  /** One step of the owner's total: the first row counts only when `u` owns it. */
  lemma OwnerSumCons(rows: seq<CartItem>, u: UserId)
    requires rows != []
    ensures CartSum(OwnedBy(rows, u)) == (if rows[0].user == u then TotalPrice(rows[0]) else 0) + CartSum(OwnedBy(rows[1..], u))
  {
    CartSumAppend(if rows[0].user == u then [rows[0]] else [], OwnedBy(rows[1..], u));
  }

  /** Replacing row `i` by a row of the same owner changes that owner's total
      by the difference of the two line totals, and no other user's total. */
  lemma {:induction false} OwnerSumAfterSet(rows: seq<CartItem>, i: nat, item: CartItem, u: UserId)
    requires i < |rows| && item.user == rows[i].user
    ensures CartSum(OwnedBy(rows[i := item], u)) + (if item.user == u then TotalPrice(rows[i]) else 0)
         == CartSum(OwnedBy(rows, u)) + (if item.user == u then TotalPrice(item) else 0)
  {
    var rows' := rows[i := item];
    OwnerSumCons(rows, u);
    OwnerSumCons(rows', u);
    if i == 0 {
      assert rows'[1..] == rows[1..];
    } else {
      assert rows'[0] == rows[0];
      assert rows'[1..] == rows[1..][i - 1 := item];
      OwnerSumAfterSet(rows[1..], i - 1, item, u);
    }
  }

  /** Deleting row `i` takes its line total off its owner's total and leaves other users' totals alone. */
  lemma {:induction false} OwnerSumAfterDelete(rows: seq<CartItem>, i: nat, u: UserId)
    requires i < |rows|
    ensures CartSum(OwnedBy(rows[..i] + rows[i + 1..], u)) + (if rows[i].user == u then TotalPrice(rows[i]) else 0)
         == CartSum(OwnedBy(rows, u))
  {
    var rows' := rows[..i] + rows[i + 1..];
    OwnerSumCons(rows, u);
    if i == 0 {
      assert rows' == rows[1..];
    } else {
      assert rows'[0] == rows[0];
      assert rows'[1..] == rows[1..][..i - 1] + rows[1..][i..];
      OwnerSumCons(rows', u);
      OwnerSumAfterDelete(rows[1..], i - 1, u);
    }
  }

  /** Appending a row adds its line total to its owner's total only. */
  lemma OwnerSumAfterAppend(rows: seq<CartItem>, item: CartItem, u: UserId)
    ensures CartSum(OwnedBy(rows + [item], u)) == CartSum(OwnedBy(rows, u)) + (if item.user == u then TotalPrice(item) else 0)
  {
    OwnedByAppend(rows, [item], u);
    CartSumAppend(OwnedBy(rows, u), OwnedBy([item], u));
  }

  /** The index of the row with id `id` that belongs to `u`
      (`get_object_or_404(CartItem, id=id, user=u)`). */
  function FindOwnedItem(rows: seq<CartItem>, id: nat, u: UserId): (r: Option<nat>)
    ensures r.Some? ==> r.value < |rows| && rows[r.value].id == id && rows[r.value].user == u
    ensures r.None? ==> forall j :: 0 <= j < |rows| ==> !(rows[j].id == id && rows[j].user == u)
  {
    if rows == [] then None
    else if rows[0].id == id && rows[0].user == u then Some(0)
    else match FindOwnedItem(rows[1..], id, u)
      case None => None
      case Some(j) => Some(j + 1)
  }

  /** The index of the row for the pair `key`, the lookup of `get_or_create`. */
  function FindByKey(rows: seq<CartItem>, key: Key): (r: Option<nat>)
    ensures r.Some? ==> r.value < |rows| && KeyOf(rows[r.value]) == key
    ensures r.None? ==> forall j :: 0 <= j < |rows| ==> KeyOf(rows[j]) != key
  {
    if rows == [] then None
    else if KeyOf(rows[0]) == key then Some(0)
    else match FindByKey(rows[1..], key)
      case None => None
      case Some(j) => Some(j + 1)
  }

  /** The ledger view of the table: (user, product id) to quantity. */
  ghost function Quantities(rows: seq<CartItem>): map<Key, int>
  {
    if rows == [] then map[] else Quantities(rows[1..])[KeyOf(rows[0]) := rows[0].quantity]
  }

  /** Each row is what the ledger records for its pair. */
  lemma {:induction false} QuantitiesAt(rows: seq<CartItem>, j: nat)
    requires UniqueKeys(rows) && j < |rows|
    ensures KeyOf(rows[j]) in Quantities(rows) && Quantities(rows)[KeyOf(rows[j])] == rows[j].quantity
  {
    if j > 0 {
      assert rows[1..][j - 1] == rows[j];
      QuantitiesAt(rows[1..], j - 1);
    }
  }

  /** A pair no row carries is absent from the ledger. */
  lemma {:induction false} QuantitiesMissing(rows: seq<CartItem>, k: Key)
    requires forall j :: 0 <= j < |rows| ==> KeyOf(rows[j]) != k
    ensures k !in Quantities(rows)
  {
    if rows != [] {
      assert forall j :: 0 <= j < |rows[1..]| ==> rows[1..][j] == rows[j + 1];
      QuantitiesMissing(rows[1..], k);
    }
  }

  lemma UniqueKeysTail(rows: seq<CartItem>)
    requires UniqueKeys(rows) && rows != []
    ensures UniqueKeys(rows[1..])
    ensures forall j :: 0 <= j < |rows[1..]| ==> KeyOf(rows[1..][j]) != KeyOf(rows[0])
  {
  }

  /** Setting the quantity of row `i` is the ledger update of that one pair. */
  lemma {:induction false} QuantitiesAfterSet(rows: seq<CartItem>, i: nat, q: int)
    requires UniqueKeys(rows) && i < |rows|
    ensures Quantities(rows[i := rows[i].(quantity := q)]) == Quantities(rows)[KeyOf(rows[i]) := q]
  {
    var rows' := rows[i := rows[i].(quantity := q)];
    UniqueKeysTail(rows);
    if i == 0 {
      assert rows'[1..] == rows[1..];
    } else {
      assert rows'[1..] == rows[1..][i - 1 := rows[i].(quantity := q)];
      assert rows[1..][i - 1] == rows[i];
      QuantitiesAfterSet(rows[1..], i - 1, q);
    }
  }

  /** Dropping one pair and recording another commute when the pairs differ. */
  lemma DropThenRecord(m: map<Key, int>, k: Key, k0: Key, q: int)
    requires k != k0
    ensures (m - {k})[k0 := q] == m[k0 := q] - {k}
  {
  }

  /** Deleting row `i` removes exactly its pair from the ledger. */
  lemma {:induction false} QuantitiesAfterDelete(rows: seq<CartItem>, i: nat)
    requires UniqueKeys(rows) && i < |rows|
    ensures Quantities(rows[..i] + rows[i + 1..]) == Quantities(rows) - {KeyOf(rows[i])}
  {
    UniqueKeysTail(rows);
    var k0 := KeyOf(rows[0]);
    if i == 0 {
      assert rows[..i] + rows[i + 1..] == rows[1..];
      QuantitiesMissing(rows[1..], k0);
    } else {
      var tail := rows[1..];
      DeleteAfterHead(rows, i);
      assert tail[i - 1] == rows[i];
      QuantitiesAfterDelete(tail, i - 1);
      DropThenRecord(Quantities(tail), KeyOf(rows[i]), k0, rows[0].quantity);
      var rest' := tail[..i - 1] + tail[i..];
      assert ([rows[0]] + rest')[1..] == rest';
    }
  }

  /** Appending a row for a new pair adds exactly that pair to the ledger. */
  lemma {:induction false} QuantitiesAfterAppend(rows: seq<CartItem>, item: CartItem)
    requires forall j :: 0 <= j < |rows| ==> KeyOf(rows[j]) != KeyOf(item)
    ensures Quantities(rows + [item]) == Quantities(rows)[KeyOf(item) := item.quantity]
  {
    if rows == [] {
      assert rows + [item] == [item];
    } else {
      assert (rows + [item])[1..] == rows[1..] + [item];
      assert forall j :: 0 <= j < |rows[1..]| ==> rows[1..][j] == rows[j + 1];
      QuantitiesAfterAppend(rows[1..], item);
    }
  }

  /** The ledger with every pair of user `u` dropped. */
  ghost function WithoutUser(m: map<Key, int>, u: UserId): map<Key, int>
  {
    map k | k in m && k.0 != u :: m[k]
  }

  /** Recording a pair and then dropping user `u`'s pairs records it only when `u` does not own it. */
  lemma WithoutUserUpdate(m: map<Key, int>, k: Key, q: int, u: UserId)
    ensures k.0 != u ==> WithoutUser(m[k := q], u) == WithoutUser(m, u)[k := q]
    ensures k.0 == u ==> WithoutUser(m[k := q], u) == WithoutUser(m, u)
  {
  }

  /** Clearing user `u`'s rows drops exactly the pairs of `u` from the ledger. */
  lemma {:induction false} QuantitiesAfterClear(rows: seq<CartItem>, u: UserId)
    ensures Quantities(NotOwnedBy(rows, u)) == WithoutUser(Quantities(rows), u)
  {
    if rows != [] {
      QuantitiesAfterClear(rows[1..], u);
      WithoutUserUpdate(Quantities(rows[1..]), KeyOf(rows[0]), rows[0].quantity, u);
      var rest := NotOwnedBy(rows[1..], u);
      if rows[0].user != u {
        assert NotOwnedBy(rows, u) == [rows[0]] + rest;
        assert ([rows[0]] + rest)[1..] == rest;
      } else {
        assert NotOwnedBy(rows, u) == rest;
      }
    }
  }
}
