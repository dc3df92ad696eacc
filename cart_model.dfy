/** `src/models/CartModel.php`: the `cart` table, one row per (user, product) pair
    with a quantity. Every write is scoped to one user. */
module CartModel {
  import opened Wrappers
  import Seqs
  import Catalog
  import CategoryModel

  /** A row of `cart`. */
  datatype CartItem = CartItem(id: int, userId: int, productId: int, quantity: int)

  /** A row of `getCartItems`: the cart row joined with its product and category. */
  datatype CartLine = CartLine(cartId: int, quantity: int, productId: int, status: string, categoryName: string)

  predicate IsPair(r: CartItem, userId: int, productId: int) {
    r.userId == userId && r.productId == productId
  }

  /** `isInCart(u, p)`. */
  predicate InCart(rows: seq<CartItem>, userId: int, productId: int) {
    exists i :: 0 <= i < |rows| && IsPair(rows[i], userId, productId)
  }

  /** The position of the user's row for the product, if there is one. */
  function FindPair(rows: seq<CartItem>, userId: int, productId: int): (r: Option<nat>)
    ensures r.Some? ==> r.value < |rows| && IsPair(rows[r.value], userId, productId)
    ensures r.None? <==> !InCart(rows, userId, productId)
  {
    Seqs.FirstIndex(rows, (x: CartItem) => IsPair(x, userId, productId))
  }

  predicate Available(products: seq<Catalog.Product>, productId: int) {
    Catalog.FindProduct(products, productId).Some? && Catalog.FindProduct(products, productId).value.status == "Available"
  }

  /** A user holds each product in at most one row. */
  predicate PairsUnique(rows: seq<CartItem>) {
    forall i, j :: 0 <= i < j < |rows| ==> !(rows[i].userId == rows[j].userId && rows[i].productId == rows[j].productId)
  }

  predicate IdsUnique(rows: seq<CartItem>) {
    forall i, j :: 0 <= i < j < |rows| ==> rows[i].id != rows[j].id
  }

  /** Rows are kept in insertion order, and `AUTO_INCREMENT` hands out growing ids. */
  predicate IdsAscending(rows: seq<CartItem>) {
    forall i, j :: 0 <= i < j < |rows| ==> rows[i].id < rows[j].id
  }

  /** `SUM(quantity) … WHERE user_id = ?`, with the `NULL` of an empty sum read as 0. */
  function CartCountOf(rows: seq<CartItem>, userId: int): (n: int)
    ensures (forall i :: 0 <= i < |rows| ==> rows[i].userId != userId) ==> n == 0
    ensures (forall i :: 0 <= i < |rows| ==> rows[i].quantity >= 0) ==> n >= 0
  {
    if rows == [] then 0
    else (if rows[0].userId == userId then rows[0].quantity else 0) + CartCountOf(rows[1..], userId)
  }

  /** The rows after the merge branch: the (user, product) row gains `quantity`. */
  function AddQuantity(rows: seq<CartItem>, userId: int, productId: int, quantity: int): (r: seq<CartItem>)
    ensures |r| == |rows|
    ensures forall i :: 0 <= i < |rows| ==>
      r[i] == if IsPair(rows[i], userId, productId) then rows[i].(quantity := rows[i].quantity + quantity) else rows[i]
  {
    if rows == [] then []
    else [if IsPair(rows[0], userId, productId) then rows[0].(quantity := rows[0].quantity + quantity) else rows[0]]
         + AddQuantity(rows[1..], userId, productId, quantity)
  }

  /** The rows after `addToCart` got past the product check: merged into the
      existing row, or one new row with id `newId`. */
  function Added(rows: seq<CartItem>, userId: int, productId: int, quantity: int, newId: int): seq<CartItem> {
    if InCart(rows, userId, productId) then AddQuantity(rows, userId, productId, quantity)
    else rows + [CartItem(newId, userId, productId, quantity)]
  }

  /** The rows after `UPDATE cart SET quantity WHERE id AND user_id`. */
  function WithQuantity(rows: seq<CartItem>, cartId: int, userId: int, quantity: int): (r: seq<CartItem>)
    ensures |r| == |rows|
    ensures forall i :: 0 <= i < |rows| ==>
      r[i] == if rows[i].id == cartId && rows[i].userId == userId then rows[i].(quantity := quantity) else rows[i]
  {
    if rows == [] then []
    else [if rows[0].id == cartId && rows[0].userId == userId then rows[0].(quantity := quantity) else rows[0]]
         + WithQuantity(rows[1..], cartId, userId, quantity)
  }

  /** The rows after `DELETE FROM cart WHERE id AND user_id`. */
  function Removed(rows: seq<CartItem>, cartId: int, userId: int): (r: seq<CartItem>)
    ensures forall x :: x in r <==> x in rows && !(x.id == cartId && x.userId == userId)
  {
    Seqs.FilterMembership(rows, (x: CartItem) => !(x.id == cartId && x.userId == userId));
    Seqs.Filter(rows, (x: CartItem) => !(x.id == cartId && x.userId == userId))
  }

  /** The rows after `DELETE FROM cart WHERE user_id`. */
  function Cleared(rows: seq<CartItem>, userId: int): (r: seq<CartItem>)
    ensures forall x :: x in r <==> x in rows && x.userId != userId
  {
    Seqs.FilterMembership(rows, (x: CartItem) => x.userId != userId);
    Seqs.Filter(rows, (x: CartItem) => x.userId != userId)
  }

  /** The join of one cart row; an inner join drops it if its product or the
      product's category is missing. */
  function LineOf(x: CartItem, products: seq<Catalog.Product>, categories: seq<CategoryModel.Category>): (r: Option<CartLine>)
    ensures r.Some? ==> r.value.cartId == x.id && r.value.quantity == x.quantity && r.value.productId == x.productId
    ensures r.Some? <==> Catalog.FindProduct(products, x.productId).Some?
                         && CategoryModel.FindById(categories, Catalog.FindProduct(products, x.productId).value.categoryId).Some?
  {
    match Catalog.FindProduct(products, x.productId)
    case None => None
    case Some(p) =>
      match CategoryModel.FindById(categories, p.categoryId)
      case None => None
      case Some(c) => Some(CartLine(x.id, x.quantity, p.id, p.status, c.fields.name))
  }

  /** The user's joined rows in insertion order: a line for every row of the user
      whose product and category exist, and nothing else. */
  function JoinedLines(rows: seq<CartItem>, userId: int, products: seq<Catalog.Product>, categories: seq<CategoryModel.Category>): (r: seq<CartLine>)
    ensures |r| <= |rows|
    ensures forall line :: line in r ==> exists x :: x in rows && x.userId == userId && LineOf(x, products, categories) == Some(line)
    ensures forall x :: x in rows && x.userId == userId && LineOf(x, products, categories).Some? ==>
              LineOf(x, products, categories).value in r
    ensures IdsAscending(rows) ==> forall i, j :: 0 <= i < j < |r| ==> r[i].cartId < r[j].cartId
  {
    if rows == [] then []
    else
      var rest := JoinedLines(rows[1..], userId, products, categories);
      var line := LineOf(rows[0], products, categories);
      assert forall x :: x in rows ==> x == rows[0] || x in rows[1..];
      assert IdsAscending(rows) ==> IdsAscending(rows[1..]) && forall x :: x in rows[1..] ==> rows[0].id < x.id;
      assert IdsAscending(rows) ==> forall i :: 0 <= i < |rest| ==> rows[0].id < rest[i].cartId by {
        forall i | IdsAscending(rows) && 0 <= i < |rest| ensures rows[0].id < rest[i].cartId {
          assert rest[i] in rest;
        }
      }
      if rows[0].userId == userId && line.Some? then [line.value] + rest else rest
  }

  /** `getCartItems`: the user's rows joined with product and category, newest
      first (`ORDER BY c.added_at DESC`, with insertion order standing for
      `added_at`). */
  function CartLines(rows: seq<CartItem>, userId: int, products: seq<Catalog.Product>, categories: seq<CategoryModel.Category>): (r: seq<CartLine>)
    ensures |r| <= |rows|
    ensures forall line :: line in r ==> exists x :: x in rows && x.userId == userId && LineOf(x, products, categories) == Some(line)
    ensures forall x :: x in rows && x.userId == userId && LineOf(x, products, categories).Some? ==>
              LineOf(x, products, categories).value in r
    ensures IdsAscending(rows) ==> forall i, j :: 0 <= i < j < |r| ==> r[i].cartId > r[j].cartId
  {
    var j := JoinedLines(rows, userId, products, categories);
    var r := Seqs.Reverse(j);
    assert forall k :: 0 <= k < |r| ==> r[k] == j[|j| - 1 - k];
    assert forall line :: line in r <==> line in j by {
      forall line ensures line in r <==> line in j {
        if line in j {
          var k :| 0 <= k < |j| && j[k] == line;
          assert r[|j| - 1 - k] == line;
        }
      }
    }
    r
  }

  // ---------------------------------------------------------------------------
  // What the operations do to the count and to other users
  // ---------------------------------------------------------------------------

  /** Without a matching row, adding the quantity changes nothing. */
  lemma {:induction false} AddQuantityAbsent(rows: seq<CartItem>, userId: int, productId: int, quantity: int)
    requires !InCart(rows, userId, productId)
    ensures AddQuantity(rows, userId, productId, quantity) == rows
  {
    if rows != [] {
      assert !InCart(rows[1..], userId, productId) by {
        forall i | 0 <= i < |rows[1..]| ensures !IsPair(rows[1..][i], userId, productId) {
          assert rows[1..][i] == rows[i + 1];
        }
      }
      AddQuantityAbsent(rows[1..], userId, productId, quantity);
    }
  }

  /** Merging raises the user's count by exactly `quantity`. */
  lemma {:induction false} AddQuantityCount(rows: seq<CartItem>, userId: int, productId: int, quantity: int)
    requires PairsUnique(rows) && InCart(rows, userId, productId)
    ensures CartCountOf(AddQuantity(rows, userId, productId, quantity), userId) == CartCountOf(rows, userId) + quantity
  {
    var r := AddQuantity(rows, userId, productId, quantity);
    assert r[1..] == AddQuantity(rows[1..], userId, productId, quantity);
    if IsPair(rows[0], userId, productId) {
      assert !InCart(rows[1..], userId, productId) by {
        forall i | 0 <= i < |rows[1..]| ensures !IsPair(rows[1..][i], userId, productId) {
          assert rows[1..][i] == rows[i + 1];
        }
      }
      AddQuantityAbsent(rows[1..], userId, productId, quantity);
    } else {
      var i :| 0 <= i < |rows| && IsPair(rows[i], userId, productId);
      assert IsPair(rows[1..][i - 1], userId, productId);
      assert PairsUnique(rows[1..]) by {
        forall a, b | 0 <= a < b < |rows[1..]|
          ensures !(rows[1..][a].userId == rows[1..][b].userId && rows[1..][a].productId == rows[1..][b].productId)
        {
          assert rows[1..][a] == rows[a + 1] && rows[1..][b] == rows[b + 1];
        }
      }
      AddQuantityCount(rows[1..], userId, productId, quantity);
    }
  }

  /** A row for another user never moves this user's count. */
  lemma {:induction false} AddQuantityOtherUser(rows: seq<CartItem>, userId: int, productId: int, quantity: int, other: int)
    requires other != userId
    ensures CartCountOf(AddQuantity(rows, userId, productId, quantity), other) == CartCountOf(rows, other)
  {
    if rows != [] {
      var r := AddQuantity(rows, userId, productId, quantity);
      assert r[1..] == AddQuantity(rows[1..], userId, productId, quantity);
      AddQuantityOtherUser(rows[1..], userId, productId, quantity, other);
    }
  }

  lemma {:induction false} CountAppendRow(rows: seq<CartItem>, x: CartItem, userId: int)
    ensures CartCountOf(rows + [x], userId) == CartCountOf(rows, userId) + (if x.userId == userId then x.quantity else 0)
  {
    if rows != [] {
      assert (rows + [x])[1..] == rows[1..] + [x];
      CountAppendRow(rows[1..], x, userId);
    }
  }

  /** `addToCart` raises exactly the adding user's count, by `quantity`, whichever
      branch it takes, and the pair is then in the cart. */
  lemma AddedCount(rows: seq<CartItem>, userId: int, productId: int, quantity: int, newId: int, other: int)
    requires PairsUnique(rows) && other != userId
    ensures CartCountOf(Added(rows, userId, productId, quantity, newId), userId) == CartCountOf(rows, userId) + quantity
    ensures CartCountOf(Added(rows, userId, productId, quantity, newId), other) == CartCountOf(rows, other)
    ensures InCart(Added(rows, userId, productId, quantity, newId), userId, productId)
  {
    var a := Added(rows, userId, productId, quantity, newId);
    if InCart(rows, userId, productId) {
      AddQuantityCount(rows, userId, productId, quantity);
      AddQuantityOtherUser(rows, userId, productId, quantity, other);
      var i :| 0 <= i < |rows| && IsPair(rows[i], userId, productId);
      assert IsPair(a[i], userId, productId);
    } else {
      var x := CartItem(newId, userId, productId, quantity);
      CountAppendRow(rows, x, userId);
      CountAppendRow(rows, x, other);
      assert IsPair(a[|rows|], userId, productId);
    }
  }

  /** Adding keeps one row per (user, product). */
  lemma AddedKeepsPairsUnique(rows: seq<CartItem>, userId: int, productId: int, quantity: int, newId: int)
    requires PairsUnique(rows)
    ensures PairsUnique(Added(rows, userId, productId, quantity, newId))
  {
  }

  /** Every id was handed out by the auto-increment counter. */
  predicate IdsBelow(rows: seq<CartItem>, nextId: int) {
    forall i :: 0 <= i < |rows| ==> 1 <= rows[i].id < nextId
  }

  /** What the table keeps true between calls. */
  predicate TableInvariant(rows: seq<CartItem>, nextId: int) {
    nextId >= 1 && IdsBelow(rows, nextId) && IdsUnique(rows) && IdsAscending(rows) && PairsUnique(rows)
  }

  /** Adding keeps the table invariant, with the counter moved on only for an insert. */
  lemma AddedKeepsInvariant(rows: seq<CartItem>, nextId: int, userId: int, productId: int, quantity: int)
    requires TableInvariant(rows, nextId)
    ensures TableInvariant(Added(rows, userId, productId, quantity, nextId),
                           if InCart(rows, userId, productId) then nextId else nextId + 1)
  {
    AddedKeepsPairsUnique(rows, userId, productId, quantity, nextId);
  }

  /** The merge writes the one row of the pair: updating it in place is `AddQuantity`. */
  lemma MergeAt(rows: seq<CartItem>, userId: int, productId: int, quantity: int, k: int)
    requires PairsUnique(rows) && 0 <= k < |rows| && IsPair(rows[k], userId, productId)
    ensures rows[k := rows[k].(quantity := rows[k].quantity + quantity)] == AddQuantity(rows, userId, productId, quantity)
  {
    var m := rows[k := rows[k].(quantity := rows[k].quantity + quantity)];
    var a := AddQuantity(rows, userId, productId, quantity);
    forall i | 0 <= i < |rows| ensures m[i] == a[i] {
      if i < k {
        assert !IsPair(rows[i], userId, productId);
      } else if i > k {
        assert !IsPair(rows[i], userId, productId);
      }
    }
  }

  /** After clearing, the user's count is 0 and every other user's is unchanged. */
  lemma {:induction false} ClearedCount(rows: seq<CartItem>, userId: int, other: int)
    requires other != userId
    ensures CartCountOf(Cleared(rows, userId), userId) == 0
    ensures CartCountOf(Cleared(rows, userId), other) == CartCountOf(rows, other)
  {
    var c := Cleared(rows, userId);
    assert forall i :: 0 <= i < |c| ==> c[i].userId != userId by {
      forall i | 0 <= i < |c| ensures c[i].userId != userId { assert c[i] in c; }
    }
    if rows != [] {
      ClearedCount(rows[1..], userId, other);
      if rows[0].userId != userId {
        assert c == [rows[0]] + Cleared(rows[1..], userId);
      } else {
        assert c == Cleared(rows[1..], userId);
      }
    }
  }

  /** Removing a row by id and owner never moves another user's count. */
  lemma {:induction false} RemovedOtherUser(rows: seq<CartItem>, cartId: int, userId: int, other: int)
    requires other != userId
    ensures CartCountOf(Removed(rows, cartId, userId), other) == CartCountOf(rows, other)
  {
    if rows != [] {
      RemovedOtherUser(rows[1..], cartId, userId, other);
      var c := Removed(rows, cartId, userId);
      if !(rows[0].id == cartId && rows[0].userId == userId) {
        assert c == [rows[0]] + Removed(rows[1..], cartId, userId);
      } else {
        assert c == Removed(rows[1..], cartId, userId);
      }
    }
  }

  /** Setting a quantity only ever changes the row with that id owned by that user:
      another user's count does not move. */
  lemma {:induction false} WithQuantityOtherUser(rows: seq<CartItem>, cartId: int, userId: int, quantity: int, other: int)
    requires other != userId
    ensures CartCountOf(WithQuantity(rows, cartId, userId, quantity), other) == CartCountOf(rows, other)
  {
    if rows != [] {
      var r := WithQuantity(rows, cartId, userId, quantity);
      assert r[1..] == WithQuantity(rows[1..], cartId, userId, quantity);
      WithQuantityOtherUser(rows[1..], cartId, userId, quantity, other);
    }
  }

  /** The `cart` table. */
  class Cart {
    var rows: seq<CartItem>
    var nextId: int

    ghost predicate Valid()
      reads this
    {
      TableInvariant(rows, nextId)
    }

    constructor ()
      ensures Valid() && rows == [] && nextId == 1
    {
      rows := [];
      nextId := 1;
    }

    /** `addToCart`: fails without a change when the product is missing or not
        'Available'; otherwise merges into the user's row for that product, or
        inserts one. */
    method AddToCart(userId: int, productId: int, quantity: int, products: seq<Catalog.Product>) returns (ok: bool)
      requires Valid()
      modifies this
      ensures Valid()
      ensures ok <==> Available(products, productId)
      ensures !ok ==> rows == old(rows) && nextId == old(nextId)
      ensures ok ==> rows == Added(old(rows), userId, productId, quantity, old(nextId))
      ensures ok && InCart(old(rows), userId, productId) ==> nextId == old(nextId)
      ensures ok && !InCart(old(rows), userId, productId) ==> nextId == old(nextId) + 1
    {
      var product := Catalog.FindProduct(products, productId);
      if product.None? {
        return false;
      }
      if product.value.status != "Available" {
        return false;
      }
      Put(userId, productId, quantity);
      ok := true;
    }

    /** The write of `addToCart`: the quantity is added to the user's row for the
        product, or a row is inserted. */
    method Put(userId: int, productId: int, quantity: int)
      requires Valid()
      modifies this
      ensures Valid()
      ensures rows == Added(old(rows), userId, productId, quantity, old(nextId))
      ensures nextId == if InCart(old(rows), userId, productId) then old(nextId) else old(nextId) + 1
    {
      ghost var after := Added(rows, userId, productId, quantity, nextId);
      AddedKeepsInvariant(rows, nextId, userId, productId, quantity);
      var existing := FindPair(rows, userId, productId);
      if existing.Some? {
        var k := existing.value;
        MergeAt(rows, userId, productId, quantity, k);
        rows := rows[k := rows[k].(quantity := rows[k].quantity + quantity)];
        assert rows == after;
      } else {
        rows := rows + [CartItem(nextId, userId, productId, quantity)];
        assert rows == after;
        nextId := nextId + 1;
      }
    }

    /** `updateQuantity`: a quantity below 1 is refused; otherwise the row with that
        id is set only if it belongs to the user, and the call succeeds either way. */
    method UpdateQuantity(cartId: int, userId: int, quantity: int) returns (ok: bool)
      requires Valid()
      modifies this
      ensures Valid() && nextId == old(nextId)
      ensures ok <==> quantity >= 1
      ensures !ok ==> rows == old(rows)
      ensures ok ==> rows == WithQuantity(old(rows), cartId, userId, quantity)
    {
      if quantity < 1 {
        return false;
      }
      rows := WithQuantity(rows, cartId, userId, quantity);
      ok := true;
    }

    /** `removeFromCart`: deletes the row only if it belongs to the user; succeeds
        either way. */
    method RemoveFromCart(cartId: int, userId: int) returns (ok: bool)
      requires Valid()
      modifies this
      ensures Valid() && nextId == old(nextId)
      ensures ok && rows == Removed(old(rows), cartId, userId)
    {
      var kept := Removed(rows, cartId, userId);
      Seqs.FilterIsSubsequence(rows, (x: CartItem) => !(x.id == cartId && x.userId == userId));
      Seqs.SubsequenceKeepsKeysDistinct(kept, rows, (x: CartItem) => x.id);
      Seqs.SubsequenceKeepsAscending(kept, rows, (x: CartItem) => x.id);
      Seqs.SubsequenceKeepsKeysDistinct(kept, rows, (x: CartItem) => (x.userId, x.productId));
      rows := kept;
      ok := true;
    }

    /** `clearCart`: deletes every row of the user and no other. */
    method ClearCart(userId: int) returns (ok: bool)
      requires Valid()
      modifies this
      ensures Valid() && nextId == old(nextId)
      ensures ok && rows == Cleared(old(rows), userId)
    {
      var kept := Cleared(rows, userId);
      Seqs.FilterIsSubsequence(rows, (x: CartItem) => x.userId != userId);
      Seqs.SubsequenceKeepsKeysDistinct(kept, rows, (x: CartItem) => x.id);
      Seqs.SubsequenceKeepsAscending(kept, rows, (x: CartItem) => x.id);
      Seqs.SubsequenceKeepsKeysDistinct(kept, rows, (x: CartItem) => (x.userId, x.productId));
      rows := kept;
      ok := true;
    }

    /** `getCartCount`. */
    method GetCartCount(userId: int) returns (n: int)
      ensures n == CartCountOf(rows, userId)
      ensures (forall i :: 0 <= i < |rows| ==> rows[i].userId != userId) ==> n == 0
    {
      n := CartCountOf(rows, userId);
    }

    /** `isInCart`: some row pairs the user with the product. */
    method IsInCart(userId: int, productId: int) returns (b: bool)
      ensures b <==> exists i :: 0 <= i < |rows| && rows[i].userId == userId && rows[i].productId == productId
    {
      b := Seqs.Any(rows, (x: CartItem) => IsPair(x, userId, productId));
    }

    /** `getCartItems`: a line for exactly the user's rows whose product and
        category exist, newest first. */
    method GetCartItems(userId: int, products: seq<Catalog.Product>, categories: seq<CategoryModel.Category>) returns (items: seq<CartLine>)
      requires Valid()
      ensures items == CartLines(rows, userId, products, categories)
      ensures forall line :: line in items ==> exists x :: x in rows && x.userId == userId && LineOf(x, products, categories) == Some(line)
      ensures forall x :: x in rows && x.userId == userId && LineOf(x, products, categories).Some? ==>
                LineOf(x, products, categories).value in items
      ensures forall i, j :: 0 <= i < j < |items| ==> items[i].cartId > items[j].cartId
    {
      items := CartLines(rows, userId, products, categories);
    }
  }
}
