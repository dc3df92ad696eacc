/** `api/images.php`: the `match (true)` that picks an image handler. */
module ImagesRouter {
  import opened Wrappers
  import opened Text

  datatype Route =
    | Upload
    | Delete(id: int)
    | SetPrimary(id: int)
    | ByProduct(productId: int)
    | NotFound

  /** The first arm that holds wins; `action` defaults to the empty string. */
  function RouteOf(verb: string, idParam: Option<string>, productParam: Option<string>, action: Option<string>): (r: Route)
    ensures r == Upload <==> verb == "POST" && action == Some("upload")
    ensures r.Delete? <==> verb == "DELETE" && idParam.Some?
    ensures r.SetPrimary? <==> verb == "PUT" && idParam.Some? && action == Some("primary")
    ensures r.ByProduct? <==> verb == "GET" && productParam.Some?
    ensures r.Delete? ==> r.id == IntCast(idParam.value)
    ensures r.SetPrimary? ==> r.id == IntCast(idParam.value)
    ensures r.ByProduct? ==> r.productId == IntCast(productParam.value)
  {
    var act := action.GetOr("");
    if verb == "POST" && act == "upload" then Upload
    else if verb == "DELETE" && idParam.Some? then Delete(IntCast(idParam.value))
    else if verb == "PUT" && idParam.Some? && act == "primary" then SetPrimary(IntCast(idParam.value))
    else if verb == "GET" && productParam.Some? then ByProduct(IntCast(productParam.value))
    else NotFound
  }

  /** A PUT without `action=primary` and a POST without `action=upload` reach no handler. */
  lemma ActionIsRequired(idParam: Option<string>, productParam: Option<string>, action: Option<string>)
    requires action != Some("primary") && action != Some("upload")
    ensures RouteOf("PUT", idParam, productParam, action) == NotFound
    ensures RouteOf("POST", idParam, productParam, action) == NotFound
  {
  }
}
