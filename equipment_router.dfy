/** `api/equipment.php`: the `match (true)` that picks an equipment handler. */
module EquipmentRouter {
  import opened Wrappers
  import opened Text

  datatype Route =
    | Statistics
    | ByCategory(categoryId: int)
    | Index
    | Show(id: int)
    | Store
    | Update(id: int)
    | Destroy(id: int)
    | NotFound

  /** The first arm that holds wins. The `id` and `category_id` query values are cast
      with `(int)` when set; `action` defaults to the empty string. */
  function RouteOf(verb: string, idParam: Option<string>, categoryParam: Option<string>, action: Option<string>): (r: Route)
    ensures verb == "GET" && action == Some("statistics") ==> r == Statistics
    ensures verb == "GET" && action != Some("statistics") && categoryParam.Some? ==> r == ByCategory(IntCast(categoryParam.value))
    ensures verb == "GET" && action != Some("statistics") && categoryParam.None? ==>
              r == (if idParam.None? then Index else Show(IntCast(idParam.value)))
    ensures verb == "POST" ==> r == Store
    ensures verb == "PUT" && idParam.Some? ==> r == Update(IntCast(idParam.value))
    ensures verb == "DELETE" && idParam.Some? ==> r == Destroy(IntCast(idParam.value))
    ensures r == NotFound <==>
              !(verb == "GET" || verb == "POST" || ((verb == "PUT" || verb == "DELETE") && idParam.Some?))
  {
    var act := action.GetOr("");
    if verb == "GET" && act == "statistics" then Statistics
    else if verb == "GET" && categoryParam.Some? then ByCategory(IntCast(categoryParam.value))
    else if verb == "GET" && idParam.None? then Index
    else if verb == "GET" && idParam.Some? then Show(IntCast(idParam.value))
    else if verb == "POST" then Store
    else if verb == "PUT" && idParam.Some? then Update(IntCast(idParam.value))
    else if verb == "DELETE" && idParam.Some? then Destroy(IntCast(idParam.value))
    else NotFound
  }

  /** `?action=statistics` beats `category_id`, which beats `id`; the query's other
      parameters do not matter for a write. */
  lemma Precedence(idParam: Option<string>, categoryParam: string, action: Option<string>)
    ensures RouteOf("GET", idParam, Some(categoryParam), Some("statistics")) == Statistics
    ensures action != Some("statistics") ==> RouteOf("GET", idParam, Some(categoryParam), action) == ByCategory(IntCast(categoryParam))
    ensures idParam.Some? ==> RouteOf("PUT", idParam, Some(categoryParam), action) == Update(IntCast(idParam.value))
    ensures idParam.Some? ==> RouteOf("DELETE", idParam, Some(categoryParam), action) == Destroy(IntCast(idParam.value))
  {
  }
}
