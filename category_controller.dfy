/** `src/controllers/CategoryController.php`: reads need a session, writes need an
    admin, and a category that products still reference is never deleted. */
module CategoryController {
  import opened Wrappers
  import opened Text
  import opened AuthConfig
  import C = CategoryModel
  import Catalog
  import Seqs

  function CategoryJson(c: C.Category): map<string, Json> {
    map["id" := JInt(c.id), "name" := JStr(c.fields.name), "description" := JStr(c.fields.description)]
  }

  function ListJson(rows: seq<C.Category>): (r: seq<Json>)
    ensures |r| == |rows| && forall i :: 0 <= i < |rows| ==> r[i] == JObject(CategoryJson(rows[i]))
  {
    if rows == [] then [] else [JObject(CategoryJson(rows[0]))] + ListJson(rows[1..])
  }

  /** `index`: every category by name, with the count. */
  method Index(caller: Caller, categories: C.CategoryTable) returns (r: Response)
    ensures NoUser(caller.session) ==> r == ErrorResponse(401, UnauthorisedMessage)
    ensures !NoUser(caller.session) ==>
      r == Response(200, map["data" := JList(ListJson(C.FindAll(categories.rows))), "count" := JInt(|categories.rows|)])
  {
    var gate := RequireAuth(caller.session);
    if gate.Some? {
      return gate.value;
    }
    var items := C.FindAll(categories.rows);
    assert |items| == |multiset(items)| == |categories.rows|;
    r := Response(200, map["data" := JList(ListJson(items)), "count" := JInt(|items|)]);
  }

  /** `show`: 404 for an unknown id; otherwise the row with `product_count`. */
  method Show(caller: Caller, id: int, categories: C.CategoryTable, products: seq<Catalog.Product>) returns (r: Response)
    ensures NoUser(caller.session) ==> r == ErrorResponse(401, UnauthorisedMessage)
    ensures !NoUser(caller.session) && C.FindById(categories.rows, id).None? ==>
              r == ErrorResponse(404, "Category not found.")
    ensures !NoUser(caller.session) && C.FindById(categories.rows, id).Some? ==>
              r == Response(200, map["data" := JObject(CategoryJson(C.FindById(categories.rows, id).value)
                                                       ["product_count" := JInt(C.CountProducts(products, id))])])
  {
    var gate := RequireAuth(caller.session);
    if gate.Some? {
      return gate.value;
    }
    var item := C.FindById(categories.rows, id);
    if item.None? {
      return ErrorResponse(404, "Category not found.");
    }
    var data := CategoryJson(item.value)["product_count" := JInt(C.CountProducts(products, id))];
    r := Response(200, map["data" := JObject(data)]);
  }

  /** The guards of `store`: admin, Content-Type, body, 422, then 409 when the
      escaped name is taken. */
  function StoreCheck(caller: Caller, req: JsonInput, rows: seq<C.Category>): (d: Result<C.CategoryFields, Response>)
    ensures AdminJsonGate(caller, req.contentType).Some? ==> d == Failure(AdminJsonGate(caller, req.contentType).value)
    ensures AdminJsonGate(caller, req.contentType).None? && BodyOf(req).Failure? ==> d == Failure(BodyOf(req).error)
    ensures AdminJsonGate(caller, req.contentType).None? && BodyOf(req).Success? ==>
              var v := C.Validate(BodyOf(req).value);
              && (v.Failure? ==> d == Failure(ErrorResponse(422, v.error)))
              && (v.Success? && C.NameExists(rows, v.value.name, None) ==>
                    d == Failure(ErrorResponse(409, "Category name already exists.")))
    ensures d.Success? ==>
              && BodyOf(req).Success? && C.Validate(BodyOf(req).value) == Success(d.value)
              && !C.NameExists(rows, d.value.name, None)
  {
    var gate := AdminJsonGate(caller, req.contentType);
    if gate.Some? then Failure(gate.value)
    else match BodyOf(req)
      case Failure(resp) => Failure(resp)
      case Success(body) =>
        match C.Validate(body)
        case Failure(msg) => Failure(ErrorResponse(422, msg))
        case Success(fields) =>
          if C.NameExists(rows, fields.name, None) then Failure(ErrorResponse(409, "Category name already exists."))
          else Success(fields)
  }

  /** The insert and the 201 response of `store`, for fields whose name is free. */
  method InsertCategory(fields: C.CategoryFields, categories: C.CategoryTable) returns (r: Response)
    requires categories.Valid()
    requires !C.NameExists(categories.rows, fields.name, None)
    modifies categories
    ensures categories.Valid()
    ensures var created := C.Category(old(categories.nextId), fields);
            && categories.rows == old(categories.rows) + [created]
            && r == Response(201, map["message" := JStr("Category created."), "data" := JObject(CategoryJson(created))])
  {
    var created := categories.Create(fields);
    match created {
      case Failure(e) =>
        assert false;
      case Success(newId) =>
        C.IdsUnique(categories.rows, |categories.rows| - 1);
        var item := C.FindById(categories.rows, newId);
        r := Response(201, map["message" := JStr("Category created."), "data" := JObject(CategoryJson(item.value))]);
    }
  }

  /** `store`. */
  method Store(caller: Caller, req: JsonInput, categories: C.CategoryTable) returns (r: Response)
    requires categories.Valid()
    modifies categories
    ensures categories.Valid()
    ensures StoreCheck(caller, req, old(categories.rows)).Failure? ==>
              r == StoreCheck(caller, req, old(categories.rows)).error && unchanged(categories)
    ensures StoreCheck(caller, req, old(categories.rows)).Success? ==>
              var created := C.Category(old(categories.nextId), StoreCheck(caller, req, old(categories.rows)).value);
              && categories.rows == old(categories.rows) + [created]
              && r == Response(201, map["message" := JStr("Category created."), "data" := JObject(CategoryJson(created))])
  {
    var check := StoreCheck(caller, req, categories.rows);
    if check.Failure? {
      return check.error;
    }
    r := InsertCategory(check.value, categories);
  }

  /** The guards of `update`: admin, Content-Type, 404 before the body is read,
      body, 422, then 409 only when another category has the name. */
  function UpdateCheck(caller: Caller, id: int, req: JsonInput, rows: seq<C.Category>): (d: Result<C.CategoryFields, Response>)
    ensures AdminJsonGate(caller, req.contentType).Some? ==> d == Failure(AdminJsonGate(caller, req.contentType).value)
    ensures AdminJsonGate(caller, req.contentType).None? && C.FindById(rows, id).None? ==>
              d == Failure(ErrorResponse(404, "Category not found."))
    ensures AdminJsonGate(caller, req.contentType).None? && C.FindById(rows, id).Some? && BodyOf(req).Failure? ==>
              d == Failure(BodyOf(req).error)
    ensures AdminJsonGate(caller, req.contentType).None? && C.FindById(rows, id).Some? && BodyOf(req).Success? ==>
              var v := C.Validate(BodyOf(req).value);
              && (v.Failure? ==> d == Failure(ErrorResponse(422, v.error)))
              && (v.Success? && C.NameExists(rows, v.value.name, Some(id)) ==>
                    d == Failure(ErrorResponse(409, "Category name already exists on another category.")))
    ensures d.Success? ==>
              && C.FindById(rows, id).Some? && BodyOf(req).Success?
              && C.Validate(BodyOf(req).value) == Success(d.value)
              && !C.NameExists(rows, d.value.name, Some(id))
  {
    var gate := AdminJsonGate(caller, req.contentType);
    if gate.Some? then Failure(gate.value)
    else if C.FindById(rows, id).None? then Failure(ErrorResponse(404, "Category not found."))
    else match BodyOf(req)
      case Failure(resp) => Failure(resp)
      case Success(body) =>
        match C.Validate(body)
        case Failure(msg) => Failure(ErrorResponse(422, msg))
        case Success(fields) =>
          if C.NameExists(rows, fields.name, Some(id)) then
            Failure(ErrorResponse(409, "Category name already exists on another category."))
          else Success(fields)
  }

  /** `update`: 500 when the row was not changed, else 200 with the new row. */
  method Update(caller: Caller, id: int, req: JsonInput, categories: C.CategoryTable) returns (r: Response)
    requires categories.Valid()
    modifies categories
    ensures categories.Valid()
    ensures UpdateCheck(caller, id, req, old(categories.rows)).Failure? ==>
              r == UpdateCheck(caller, id, req, old(categories.rows)).error && unchanged(categories)
    ensures UpdateCheck(caller, id, req, old(categories.rows)).Success? ==>
              var f := UpdateCheck(caller, id, req, old(categories.rows)).value;
              && categories.rows == C.Updated(old(categories.rows), id, f)
              && (!C.UpdateChangesRow(old(categories.rows), id, f) ==>
                    r == ErrorResponse(500, "Update failed — no rows affected."))
              && (C.UpdateChangesRow(old(categories.rows), id, f) ==>
                    r == Response(200, map["message" := JStr("Category updated."), "data" := JObject(CategoryJson(C.Category(id, f)))]))
  {
    var check := UpdateCheck(caller, id, req, categories.rows);
    if check.Failure? {
      return check.error;
    }
    var fields := check.value;
    var before := categories.rows;
    var updated := categories.Update(id, fields);
    match updated {
      case Failure(e) =>
        assert false;
      case Success(ok) =>
        if !ok {
          return ErrorResponse(500, "Update failed — no rows affected.");
        }
        C.FindAfterUpdate(before, id, fields, id + 1);
        var item := C.FindById(categories.rows, id);
        r := Response(200, map["message" := JStr("Category updated."), "data" := JObject(CategoryJson(item.value))]);
    }
  }

  function InUseMessage(count: nat): string {
    "Cannot delete category with " + NatToString(count) + " product(s). Reassign or delete products first."
  }

  /** The guards of `destroy`: admin, 404, then 409 naming the product count. */
  function DestroyCheck(caller: Caller, id: int, rows: seq<C.Category>, products: seq<Catalog.Product>): (d: Option<Response>)
    ensures caller.adminGate.Some? ==> d == caller.adminGate
    ensures caller.adminGate.None? && C.FindById(rows, id).None? ==> d == Some(ErrorResponse(404, "Category not found."))
    ensures caller.adminGate.None? && C.FindById(rows, id).Some? && C.CountProducts(products, id) > 0 ==>
              d == Some(ErrorResponse(409, InUseMessage(C.CountProducts(products, id))))
    ensures d.None? <==> caller.adminGate.None? && C.FindById(rows, id).Some? && C.CountProducts(products, id) == 0
  {
    if caller.adminGate.Some? then caller.adminGate
    else if C.FindById(rows, id).None? then Some(ErrorResponse(404, "Category not found."))
    else if C.CountProducts(products, id) > 0 then Some(ErrorResponse(409, InUseMessage(C.CountProducts(products, id))))
    else None
  }

  /** The 409 message names the count, and different counts give different messages. */
  lemma InUseMessageNamesCount(m: nat, n: nat)
    requires InUseMessage(m) == InUseMessage(n)
    ensures m == n
  {
    var p := "Cannot delete category with ";
    var s := " product(s). Reassign or delete products first.";
    var a := NatToString(m);
    var b := NatToString(n);
    assert (p + a + s)[|p|..|p| + |a|] == a;
    assert (p + b + s)[|p|..|p| + |b|] == b;
    assert |a| == |b|;
    NatToStringInjective(m, n);
  }

  /** `destroy`: the category is deleted exactly when it exists and no product
      references it; the foreign-key failure is then unreachable. */
  method Destroy(caller: Caller, id: int, categories: C.CategoryTable, products: seq<Catalog.Product>) returns (r: Response)
    requires categories.Valid()
    modifies categories
    ensures categories.Valid()
    ensures DestroyCheck(caller, id, old(categories.rows), products).Some? ==>
              r == DestroyCheck(caller, id, old(categories.rows), products).value && unchanged(categories)
    ensures DestroyCheck(caller, id, old(categories.rows), products).None? ==>
              r == Response(200, map["message" := JStr("Category deleted.")])
              && categories.rows == C.Deleted(old(categories.rows), id)
  {
    var check := DestroyCheck(caller, id, categories.rows, products);
    if check.Some? {
      return check.value;
    }
    var deleted := categories.Delete(id, products);
    match deleted {
      case Failure(e) =>
        assert false;
      case Success(ok) =>
        if !ok {
          assert false;
        }
        r := Response(200, map["message" := JStr("Category deleted.")]);
    }
  }
}
