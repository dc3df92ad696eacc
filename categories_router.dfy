/** `api/categories.php`: the `match (true)` that picks a category handler. */
module CategoriesRouter {
  import opened Wrappers
  import opened Text

  datatype Route =
    | Index
    | Show(id: int)
    | Store
    | Update(id: int)
    | Destroy(id: int)
    | NotFound

  /** The first arm that holds wins; `id` is cast with `(int)` when set. */
  function RouteOf(verb: string, idParam: Option<string>): (r: Route)
    ensures verb == "GET" ==> r == (if idParam.None? then Index else Show(IntCast(idParam.value)))
    ensures verb == "POST" ==> r == Store
    ensures verb == "PUT" && idParam.Some? ==> r == Update(IntCast(idParam.value))
    ensures verb == "DELETE" && idParam.Some? ==> r == Destroy(IntCast(idParam.value))
    ensures r == NotFound <==>
              !(verb == "GET" || verb == "POST" || ((verb == "PUT" || verb == "DELETE") && idParam.Some?))
  {
    if verb == "GET" && idParam.None? then Index
    else if verb == "GET" && idParam.Some? then Show(IntCast(idParam.value))
    else if verb == "POST" then Store
    else if verb == "PUT" && idParam.Some? then Update(IntCast(idParam.value))
    else if verb == "DELETE" && idParam.Some? then Destroy(IntCast(idParam.value))
    else NotFound
  }
}
