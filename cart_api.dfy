/** `api/cart.php`: a client's shopping cart. Every request is for the session's
    own user. */
module CartApi {
  import opened Wrappers
  import opened Text
  import opened AuthConfig
  import M = CartModel
  import Catalog
  import CategoryModel

  const MethodNotAllowed := ErrorResponse(405, "Method not allowed")
  const ClientsOnly := ErrorResponse(403, "Only clients can access the shopping cart")
  const QuantityTooSmall := ErrorResponse(400, "Quantity must be at least 1")
  const CartIdRequired := ErrorResponse(400, "Cart item ID is required")

  /** The opening of the script: `requireAuth()`, then the client check. */
  function CartGate(caller: Caller): (r: Option<Response>)
    ensures NoUser(caller.session) ==> r == Some(ErrorResponse(401, UnauthorisedMessage))
    ensures !NoUser(caller.session) && !caller.isClient ==> r == Some(ClientsOnly)
    ensures r.None? <==> !NoUser(caller.session) && caller.isClient
  {
    if NoUser(caller.session) then RequireAuth(caller.session)
    else if !caller.isClient then Some(ClientsOnly)
    else None
  }

  function LineJson(l: M.CartLine): Json {
    JObject(map["cart_id" := JInt(l.cartId), "quantity" := JInt(l.quantity), "product_id" := JInt(l.productId),
                "status" := JStr(l.status), "category_name" := JStr(l.categoryName)])
  }

  function LinesJson(s: seq<M.CartLine>): (r: seq<Json>)
    ensures |r| == |s| && forall i :: 0 <= i < |s| ==> r[i] == LineJson(s[i])
  {
    if s == [] then [] else [LineJson(s[0])] + LinesJson(s[1..])
  }

  /** `handleGet`: `?action=count` gives the summed quantity; anything else the lines. */
  method HandleGet(userId: int, action: Option<string>, cart: M.Cart, products: seq<Catalog.Product>,
                   categories: seq<CategoryModel.Category>) returns (r: Response)
    requires cart.Valid()
    ensures action == Some("count") ==>
              r == Response(200, map["success" := JBool(true), "count" := JInt(M.CartCountOf(cart.rows, userId))])
    ensures action != Some("count") ==>
              var items := M.CartLines(cart.rows, userId, products, categories);
              r == Response(200, map["success" := JBool(true), "items" := JList(LinesJson(items)), "count" := JInt(|items|)])
  {
    if action == Some("count") {
      var count := cart.GetCartCount(userId);
      r := Response(200, map["success" := JBool(true), "count" := JInt(count)]);
    } else {
      var items := cart.GetCartItems(userId, products, categories);
      r := Response(200, map["success" := JBool(true), "items" := JList(LinesJson(items)), "count" := JInt(|items|)]);
    }
  }

  /** The checks of `handlePost`, in order, with the product and quantity they read:
      `(int)` casts, the quantity 1 when not sent. `data` is `None` when the body does
      not decode to an array. */
  function AddCheck(contentType: string, data: Option<Body>): (d: Result<(int, int), Response>)
    ensures ContentTypeGate(contentType).Some? ==> d == Failure(ContentTypeGate(contentType).value)
    ensures ContentTypeGate(contentType).None? && (data.None? || "product_id" !in data.value) ==>
              d == Failure(ErrorResponse(400, "product_id is required"))
    ensures d.Success? <==>
              && ContentTypeGate(contentType).None? && data.Some? && "product_id" in data.value
              && ("quantity" in data.value ==> IntCast(data.value["quantity"]) >= 1)
    ensures d.Success? ==>
              && d.value.0 == IntCast(data.value["product_id"])
              && d.value.1 == (if "quantity" in data.value then IntCast(data.value["quantity"]) else 1)
              && d.value.1 >= 1
  {
    if ContentTypeGate(contentType).Some? then Failure(ContentTypeGate(contentType).value)
    else if data.None? || "product_id" !in data.value then Failure(ErrorResponse(400, "product_id is required"))
    else
      var quantity := if "quantity" in data.value then IntCast(data.value["quantity"]) else 1;
      if quantity < 1 then Failure(QuantityTooSmall)
      else Success((IntCast(data.value["product_id"]), quantity))
  }

  /** What `handlePost` leaves behind, from the rows `before` and counter `nextId`
      to the rows `after`, with the answer `r`. */
  predicate PostOutcome(userId: int, contentType: string, data: Option<Body>, products: seq<Catalog.Product>,
                        before: seq<M.CartItem>, nextId: int, after: seq<M.CartItem>, r: Response) {
    var check := AddCheck(contentType, data);
    && (check.Failure? ==> r == check.error && after == before)
    && (check.Success? && !M.Available(products, check.value.0) ==>
          r == ErrorResponse(400, "Failed to add product to cart. Product may not be available.") && after == before)
    && (check.Success? && M.Available(products, check.value.0) ==>
          && after == M.Added(before, userId, check.value.0, check.value.1, nextId)
          && r == AddedResponse(M.CartCountOf(after, userId)))
  }

  /** `handlePost`: adds to the user's row for the product (or a new row) and answers
      with the new count; a missing or unavailable product is a 400. */
  method HandlePost(userId: int, contentType: string, data: Option<Body>, cart: M.Cart, products: seq<Catalog.Product>)
    returns (r: Response)
    requires cart.Valid()
    modifies cart
    ensures cart.Valid()
    ensures AddCheck(contentType, data).Failure? ==> unchanged(cart)
    ensures PostOutcome(userId, contentType, data, products, old(cart.rows), old(cart.nextId), cart.rows, r)
    ensures forall u :: u != userId ==> M.CartCountOf(cart.rows, u) == M.CartCountOf(old(cart.rows), u)
  {
    var check := AddCheck(contentType, data);
    if check.Failure? {
      return check.error;
    }
    var (productId, quantity) := check.value;
    var o := cart.rows;
    var n := cart.nextId;
    r := AddItem(userId, productId, quantity, cart, products);
    forall u | u != userId ensures M.CartCountOf(cart.rows, u) == M.CartCountOf(o, u) {
      if M.Available(products, productId) {
        M.AddedCount(o, userId, productId, quantity, n, u);
      }
    }
  }

  /** The answer to a successful add: the user's new cart count. */
  function AddedResponse(count: int): (r: Response)
    ensures r.status == 200 && "cart_count" in r.body && r.body["cart_count"] == JInt(count)
  {
    Response(200, map["success" := JBool(true), "message" := JStr("Product added to cart"), "cart_count" := JInt(count)])
  }

  /** The part of `handlePost` after its checks. */
  method AddItem(userId: int, productId: int, quantity: int, cart: M.Cart, products: seq<Catalog.Product>) returns (r: Response)
    requires cart.Valid()
    modifies cart
    ensures cart.Valid()
    ensures !M.Available(products, productId) ==>
              r == ErrorResponse(400, "Failed to add product to cart. Product may not be available.") && cart.rows == old(cart.rows)
    ensures M.Available(products, productId) ==> cart.rows == M.Added(old(cart.rows), userId, productId, quantity, old(cart.nextId))
    ensures M.Available(products, productId) ==> r == AddedResponse(M.CartCountOf(cart.rows, userId))
  {
    var ok := cart.AddToCart(userId, productId, quantity, products);
    if ok {
      var count := cart.GetCartCount(userId);
      r := AddedResponse(count);
    } else {
      r := ErrorResponse(400, "Failed to add product to cart. Product may not be available.");
    }
  }

  /** The checks of `handlePut`, in order: the id is required before the
      Content-Type is looked at; then a quantity of at least 1. */
  function UpdateCheck(idParam: Option<string>, contentType: string, data: Option<Body>): (d: Result<(int, int), Response>)
    ensures idParam.None? ==> d == Failure(CartIdRequired)
    ensures idParam.Some? && ContentTypeGate(contentType).Some? ==> d == Failure(ContentTypeGate(contentType).value)
    ensures idParam.Some? && ContentTypeGate(contentType).None? && (data.None? || "quantity" !in data.value) ==>
              d == Failure(ErrorResponse(400, "quantity is required"))
    ensures d.Success? <==>
              && idParam.Some? && ContentTypeGate(contentType).None? && data.Some? && "quantity" in data.value
              && IntCast(data.value["quantity"]) >= 1
    ensures d.Success? ==> d.value == (IntCast(idParam.value), IntCast(data.value["quantity"]))
  {
    if idParam.None? then Failure(CartIdRequired)
    else if ContentTypeGate(contentType).Some? then Failure(ContentTypeGate(contentType).value)
    else if data.None? || "quantity" !in data.value then Failure(ErrorResponse(400, "quantity is required"))
    else if IntCast(data.value["quantity"]) < 1 then Failure(QuantityTooSmall)
    else Success((IntCast(idParam.value), IntCast(data.value["quantity"])))
  }

  /** What `handlePut` leaves behind: a failed check changes nothing; otherwise the
      caller's row with that id takes the quantity and the answer is 200. */
  predicate PutOutcome(userId: int, idParam: Option<string>, contentType: string, data: Option<Body>,
                       before: seq<M.CartItem>, after: seq<M.CartItem>, r: Response) {
    var check := UpdateCheck(idParam, contentType, data);
    && (check.Failure? ==> r == check.error && after == before)
    && (check.Success? ==>
          && after == M.WithQuantity(before, check.value.0, userId, check.value.1)
          && r == Response(200, map["success" := JBool(true), "message" := JStr("Cart updated")]))
  }

  /** `handlePut`: sets the quantity of the user's own row with that id. The update
      succeeds even when no row matches (another user's id, an unknown id), so the
      'Failed to update cart item' answer is never given. */
  method HandlePut(userId: int, idParam: Option<string>, contentType: string, data: Option<Body>, cart: M.Cart)
    returns (r: Response)
    requires cart.Valid()
    modifies cart
    ensures cart.Valid() && cart.nextId == old(cart.nextId)
    ensures PutOutcome(userId, idParam, contentType, data, old(cart.rows), cart.rows, r)
    ensures forall u :: u != userId ==> M.CartCountOf(cart.rows, u) == M.CartCountOf(old(cart.rows), u)
  {
    var check := UpdateCheck(idParam, contentType, data);
    if check.Failure? {
      return check.error;
    }
    var (cartId, quantity) := check.value;
    var o := cart.rows;
    var ok := cart.UpdateQuantity(cartId, userId, quantity);
    if !ok {
      assert false;
    }
    forall u | u != userId ensures M.CartCountOf(cart.rows, u) == M.CartCountOf(o, u) {
      M.WithQuantityOtherUser(o, cartId, userId, quantity, u);
    }
    r := Response(200, map["success" := JBool(true), "message" := JStr("Cart updated")]);
  }

  /** What `handleDelete` leaves behind: `?action=clear` empties the caller's cart;
      otherwise a missing id is a 400 with no change, and a given one removes the
      caller's row with that id and answers with the new count. */
  predicate DeleteOutcome(userId: int, action: Option<string>, idParam: Option<string>,
                          before: seq<M.CartItem>, after: seq<M.CartItem>, r: Response) {
    && (action == Some("clear") ==>
          && after == M.Cleared(before, userId)
          && r == Response(200, map["success" := JBool(true), "message" := JStr("Cart cleared")]))
    && (action != Some("clear") && idParam.None? ==> r == CartIdRequired && after == before)
    && (action != Some("clear") && idParam.Some? ==>
          && after == M.Removed(before, IntCast(idParam.value), userId)
          && r == Response(200, map["success" := JBool(true), "message" := JStr("Item removed from cart"),
                                    "cart_count" := JInt(M.CartCountOf(after, userId))]))
  }

  /** `handleDelete`: `?action=clear` empties the user's cart; otherwise the row with
      `?id=` is removed if it is the user's, and the answer carries the new count. */
  method HandleDelete(userId: int, action: Option<string>, idParam: Option<string>, cart: M.Cart) returns (r: Response)
    requires cart.Valid()
    modifies cart
    ensures cart.Valid() && cart.nextId == old(cart.nextId)
    ensures DeleteOutcome(userId, action, idParam, old(cart.rows), cart.rows, r)
    ensures forall u :: u != userId ==> M.CartCountOf(cart.rows, u) == M.CartCountOf(old(cart.rows), u)
  {
    var o := cart.rows;
    if action == Some("clear") {
      var ok := cart.ClearCart(userId);
      if !ok {
        assert false;
      }
      forall u | u != userId ensures M.CartCountOf(cart.rows, u) == M.CartCountOf(o, u) {
        M.ClearedCount(o, userId, u);
      }
      r := Response(200, map["success" := JBool(true), "message" := JStr("Cart cleared")]);
    } else {
      if idParam.None? {
        return CartIdRequired;
      }
      var ok := cart.RemoveFromCart(IntCast(idParam.value), userId);
      if !ok {
        assert false;
      }
      forall u | u != userId ensures M.CartCountOf(cart.rows, u) == M.CartCountOf(o, u) {
        M.RemovedOtherUser(o, IntCast(idParam.value), userId, u);
      }
      var count := cart.GetCartCount(userId);
      r := Response(200, map["success" := JBool(true), "message" := JStr("Item removed from cart"), "cart_count" := JInt(count)]);
    }
  }

  /** The script: the gate, then the `switch` on the method. */
  method Handle(caller: Caller, verb: string, action: Option<string>, idParam: Option<string>, contentType: string,
                data: Option<Body>, cart: M.Cart, products: seq<Catalog.Product>, categories: seq<CategoryModel.Category>)
    returns (r: Response)
    requires cart.Valid()
    modifies cart
    ensures cart.Valid()
    ensures CartGate(caller).Some? ==> r == CartGate(caller).value && unchanged(cart)
    ensures CartGate(caller).None? && verb != "GET" && verb != "POST" && verb != "PUT" && verb != "DELETE" ==>
              r == MethodNotAllowed && unchanged(cart)
    ensures verb == "GET" ==> unchanged(cart)
    ensures CartGate(caller).None? && verb == "GET" && action == Some("count") ==>
              r == Response(200, map["success" := JBool(true), "count" := JInt(M.CartCountOf(cart.rows, caller.currentUserId))])
    ensures CartGate(caller).None? && verb == "GET" && action != Some("count") ==>
              var items := M.CartLines(cart.rows, caller.currentUserId, products, categories);
              r == Response(200, map["success" := JBool(true), "items" := JList(LinesJson(items)), "count" := JInt(|items|)])
    ensures CartGate(caller).None? && verb == "POST" ==>
              PostOutcome(caller.currentUserId, contentType, data, products, old(cart.rows), old(cart.nextId), cart.rows, r)
    ensures CartGate(caller).None? && verb == "PUT" ==>
              PutOutcome(caller.currentUserId, idParam, contentType, data, old(cart.rows), cart.rows, r)
    ensures CartGate(caller).None? && verb == "DELETE" ==>
              DeleteOutcome(caller.currentUserId, action, idParam, old(cart.rows), cart.rows, r)
    ensures CartGate(caller).None? && verb != "POST" ==> cart.nextId == old(cart.nextId)
    ensures forall u :: CartGate(caller).None? && u != caller.currentUserId ==>
              M.CartCountOf(cart.rows, u) == M.CartCountOf(old(cart.rows), u)
  {
    var gate := CartGate(caller);
    if gate.Some? {
      return gate.value;
    }
    var userId := caller.currentUserId;
    if verb == "GET" {
      r := HandleGet(userId, action, cart, products, categories);
    } else if verb == "POST" {
      r := HandlePost(userId, contentType, data, cart, products);
    } else if verb == "PUT" {
      r := HandlePut(userId, idParam, contentType, data, cart);
    } else if verb == "DELETE" {
      r := HandleDelete(userId, action, idParam, cart);
    } else {
      r := MethodNotAllowed;
    }
  }
}
