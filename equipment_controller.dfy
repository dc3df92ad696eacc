/** `src/controllers/EquipmentController.php`: the equipment endpoints. Each handler
    runs its guards in order; the first that fires is the response, and only a
    request that passes all of them changes a table. */
module EquipmentController {
  import opened Wrappers
  import opened AuthConfig
  import opened Db
  import E = EquipmentModel
  import P = ProductImageModel
  import Uploads
  import Seqs

  /** A row as the undefined `findByAssignedTo`/`findByCategoryId` return it, with
      the assignment those queries are named after. */
  datatype Listed = Listed(item: E.Equipment, assignedTo: Option<int>)

  /** A row as `findById`/`findAll` select it, with `images` attached. */
  function ItemJson(e: E.Equipment, images: seq<P.Image>): Json {
    JObject(map[
      "id" := JInt(e.id),
      "name" := JStr(e.fields.name),
      "category" := JStr(e.fields.category),
      "brand" := JStr(e.fields.brand),
      "serial_number" := JStr(e.fields.serialNumber),
      "status" := JStr(e.fields.status),
      "purchase_date" := JStr(e.fields.purchaseDate),
      "images" := JList(P.ListToJson(images))])
  }

  /** Every item with `findByProductId` of its id attached. */
  function WithImages(items: seq<E.Equipment>, imageRows: seq<P.Image>): (r: seq<Json>)
    ensures |r| == |items|
    ensures forall k :: 0 <= k < |items| ==> r[k] == ItemJson(items[k], P.FindByProductId(imageRows, items[k].id))
  {
    if items == [] then []
    else
      var last := items[|items| - 1];
      WithImages(items[..|items| - 1], imageRows) + [ItemJson(last, P.FindByProductId(imageRows, last.id))]
  }

  /** What `index` lists: every row for an admin, the assigned rows otherwise. */
  function Visible(caller: Caller, rows: seq<E.Equipment>, assignedRows: seq<E.Equipment>): (r: seq<E.Equipment>)
    ensures caller.isAdmin ==> multiset(r) == multiset(rows) && |r| == |rows|
    ensures !caller.isAdmin ==> r == assignedRows
  {
    if caller.isAdmin then E.FindAll(rows) else assignedRows
  }

  /** What `byCategory` lists: a client keeps only the rows assigned to them
      (`===`), in order; anyone else sees them all. */
  function ForCategory(caller: Caller, listed: seq<Listed>): (r: seq<Listed>)
    ensures caller.isClient ==> Seqs.IsSubsequence(r, listed)
    ensures caller.isClient ==> forall l :: l in r <==> l in listed && l.assignedTo == Some(caller.currentUserId)
    ensures !caller.isClient ==> r == listed
  {
    if caller.isClient then
      Seqs.FilterIsSubsequence(listed, (l: Listed) => l.assignedTo == Some(caller.currentUserId));
      Seqs.FilterMembership(listed, (l: Listed) => l.assignedTo == Some(caller.currentUserId));
      Seqs.Filter(listed, (l: Listed) => l.assignedTo == Some(caller.currentUserId))
    else listed
  }

  function ItemsOf(listed: seq<Listed>): (r: seq<E.Equipment>)
    ensures |r| == |listed| && forall k :: 0 <= k < |listed| ==> r[k] == listed[k].item
  {
    if listed == [] then [] else [listed[0].item] + ItemsOf(listed[1..])
  }

  /** The by-reference `foreach` that attaches each item's images. */
  method AttachImages(items: seq<E.Equipment>, images: P.ImageTable) returns (out: seq<Json>)
    ensures out == WithImages(items, images.rows)
  {
    var rows := images.rows;
    out := [];
    var i := 0;
    while i < |items|
      invariant 0 <= i <= |items|
      invariant out == WithImages(items[..i], rows)
    {
      var entry := ItemJson(items[i], P.FindByProductId(rows, items[i].id));
      assert items[..i + 1][..i] == items[..i];
      out := out + [entry];
      i := i + 1;
    }
    assert items[..i] == items;
  }

  /** `index`. `assignedRows` is what the undefined `findByAssignedTo(getCurrentUserId())`
      returns. */
  method Index(caller: Caller, equipment: E.EquipmentTable, images: P.ImageTable, assignedRows: seq<E.Equipment>) returns (r: Response)
    ensures NoUser(caller.session) ==> r == ErrorResponse(401, UnauthorisedMessage)
    ensures !NoUser(caller.session) ==>
      var items := Visible(caller, equipment.rows, assignedRows);
      r == Response(200, map["data" := JList(WithImages(items, images.rows)), "count" := JInt(|items|)])
  {
    var gate := RequireAuth(caller.session);
    if gate.Some? {
      return gate.value;
    }
    var items := Visible(caller, equipment.rows, assignedRows);
    var data := AttachImages(items, images);
    r := Response(200, map["data" := JList(data), "count" := JInt(|items|)]);
  }

  const ForbiddenMessage := "Forbidden — you do not have access to this product."

  /** `show`. The row `findById` returns has no `assigned_to` column, so the client
      check compares `null` with the user id and refuses every client. */
  method Show(caller: Caller, id: int, equipment: E.EquipmentTable, images: P.ImageTable) returns (r: Response)
    ensures NoUser(caller.session) ==> r == ErrorResponse(401, UnauthorisedMessage)
    ensures !NoUser(caller.session) && E.FindById(equipment.rows, id).None? ==>
              r == ErrorResponse(404, "Equipment not found.")
    ensures !NoUser(caller.session) && E.FindById(equipment.rows, id).Some? && caller.isClient ==>
              r == ErrorResponse(403, ForbiddenMessage)
    ensures !NoUser(caller.session) && E.FindById(equipment.rows, id).Some? && !caller.isClient ==>
              r == Response(200, map["data" := ItemJson(E.FindById(equipment.rows, id).value, P.FindByProductId(images.rows, id))])
  {
    var gate := RequireAuth(caller.session);
    if gate.Some? {
      return gate.value;
    }
    var item := E.FindById(equipment.rows, id);
    if item.None? {
      return ErrorResponse(404, "Equipment not found.");
    }
    if caller.isClient {
      // `$item['assigned_to']` is null: no selected column has that name.
      return ErrorResponse(403, ForbiddenMessage);
    }
    r := Response(200, map["data" := ItemJson(item.value, P.FindByProductId(images.rows, id))]);
  }

  /** The guards of `store`, in order: the admin gate, the Content-Type, the body,
      the validator (422) and the serial probe (409). `Success` carries the
      validated fields the insert is made with. */
  function StoreCheck(caller: Caller, req: JsonInput, rows: seq<E.Equipment>): (d: Result<E.EquipmentFields, Response>)
    ensures caller.adminGate.Some? ==> d == Failure(caller.adminGate.value)
    ensures AdminJsonGate(caller, req.contentType).Some? ==> d == Failure(AdminJsonGate(caller, req.contentType).value)
    ensures AdminJsonGate(caller, req.contentType).None? && BodyOf(req).Failure? ==> d == Failure(BodyOf(req).error)
    ensures AdminJsonGate(caller, req.contentType).None? && BodyOf(req).Success? ==>
              var v := E.Validate(BodyOf(req).value);
              && (v.Failure? ==> d == Failure(ErrorResponse(422, v.error)))
              && (v.Success? && E.SerialExists(rows, v.value.serialNumber, None) ==>
                    d == Failure(ErrorResponse(409, "serial_number already exists.")))
    ensures d.Success? ==>
              && AdminJsonGate(caller, req.contentType).None? && BodyOf(req).Success?
              && E.Validate(BodyOf(req).value) == Success(d.value)
              && !E.SerialExists(rows, d.value.serialNumber, None)
  {
    var gate := AdminJsonGate(caller, req.contentType);
    if gate.Some? then Failure(gate.value)
    else match BodyOf(req)
      case Failure(resp) => Failure(resp)
      case Success(body) =>
        match E.Validate(body)
        case Failure(msg) => Failure(ErrorResponse(422, msg))
        case Success(fields) =>
          if E.SerialExists(rows, fields.serialNumber, None) then
            Failure(ErrorResponse(409, "serial_number already exists."))
          else Success(fields)
  }

  /** `store`: the response of the first guard that fires, or the inserted row
      with `images = []` and 201. */
  method Store(caller: Caller, req: JsonInput, equipment: E.EquipmentTable) returns (r: Response)
    requires equipment.Valid()
    modifies equipment
    ensures equipment.Valid()
    ensures StoreCheck(caller, req, old(equipment.rows)).Failure? ==>
              r == StoreCheck(caller, req, old(equipment.rows)).error && unchanged(equipment)
    ensures StoreCheck(caller, req, old(equipment.rows)).Success? ==>
              var created := E.Equipment(old(equipment.nextId), StoreCheck(caller, req, old(equipment.rows)).value);
              && equipment.rows == old(equipment.rows) + [created]
              && r == Response(201, map["message" := JStr("Equipment created."), "data" := ItemJson(created, [])])
  {
    var check := StoreCheck(caller, req, equipment.rows);
    if check.Failure? {
      return check.error;
    }
    r := InsertItem(check.value, equipment);
  }

  /** The insert and the 201 response of `store`, for fields whose serial is free. */
  method InsertItem(fields: E.EquipmentFields, equipment: E.EquipmentTable) returns (r: Response)
    requires equipment.Valid()
    requires !E.SerialExists(equipment.rows, fields.serialNumber, None)
    modifies equipment
    ensures equipment.Valid()
    ensures var created := E.Equipment(old(equipment.nextId), fields);
            && equipment.rows == old(equipment.rows) + [created]
            && r == Response(201, map["message" := JStr("Equipment created."), "data" := ItemJson(created, [])])
  {
    var created := equipment.Create(fields);
    match created {
      case Failure(e) =>
        assert false;
      case Success(newId) =>
        E.IdsUnique(equipment.rows, |equipment.rows| - 1);
        var item := E.FindById(equipment.rows, newId);
        r := Response(201, map["message" := JStr("Equipment created."), "data" := ItemJson(item.value, [])]);
    }
  }

  /** The guards of `update`, in order: admin, Content-Type, 404 for an unknown id
      (before the body is read), the body, 422, and 409 only for a serial held by
      another row. */
  function UpdateCheck(caller: Caller, id: int, req: JsonInput, rows: seq<E.Equipment>): (d: Result<E.EquipmentFields, Response>)
    ensures AdminJsonGate(caller, req.contentType).Some? ==> d == Failure(AdminJsonGate(caller, req.contentType).value)
    ensures AdminJsonGate(caller, req.contentType).None? && E.FindById(rows, id).None? ==>
              d == Failure(ErrorResponse(404, "Equipment not found."))
    ensures AdminJsonGate(caller, req.contentType).None? && E.FindById(rows, id).Some? && BodyOf(req).Failure? ==>
              d == Failure(BodyOf(req).error)
    ensures AdminJsonGate(caller, req.contentType).None? && E.FindById(rows, id).Some? && BodyOf(req).Success? ==>
              var v := E.Validate(BodyOf(req).value);
              && (v.Failure? ==> d == Failure(ErrorResponse(422, v.error)))
              && (v.Success? && E.SerialExists(rows, v.value.serialNumber, Some(id)) ==>
                    d == Failure(ErrorResponse(409, "serial_number already exists on another item.")))
    ensures d.Success? ==>
              && E.FindById(rows, id).Some? && BodyOf(req).Success?
              && E.Validate(BodyOf(req).value) == Success(d.value)
              && !E.SerialExists(rows, d.value.serialNumber, Some(id))
  {
    var gate := AdminJsonGate(caller, req.contentType);
    if gate.Some? then Failure(gate.value)
    else if E.FindById(rows, id).None? then Failure(ErrorResponse(404, "Equipment not found."))
    else match BodyOf(req)
      case Failure(resp) => Failure(resp)
      case Success(body) =>
        match E.Validate(body)
        case Failure(msg) => Failure(ErrorResponse(422, msg))
        case Success(fields) =>
          if E.SerialExists(rows, fields.serialNumber, Some(id)) then
            Failure(ErrorResponse(409, "serial_number already exists on another item."))
          else Success(fields)
  }

  /** The row's own serial never makes `update` answer 409. */
  lemma OwnSerialPassesUpdate(caller: Caller, id: int, req: JsonInput, rows: seq<E.Equipment>)
    requires E.UniqueKeys(rows)
    requires AdminJsonGate(caller, req.contentType).None? && BodyOf(req).Success?
    requires E.FindById(rows, id).Some? && E.Validate(BodyOf(req).value).Success?
    requires E.Validate(BodyOf(req).value).value.serialNumber == E.FindById(rows, id).value.fields.serialNumber
    ensures UpdateCheck(caller, id, req, rows).Success?
  {
    E.OwnSerialNeverConflicts(rows, id, E.FindById(rows, id).value.fields);
  }

  /** `update`: the response of the first guard that fires; otherwise the row is
      rewritten, and the answer is 500 when MySQL reports no row affected — which
      includes saving exactly the values the row already has — or 200 with the row. */
  method Update(caller: Caller, id: int, req: JsonInput, equipment: E.EquipmentTable, images: P.ImageTable) returns (r: Response)
    requires equipment.Valid()
    modifies equipment
    ensures equipment.Valid()
    ensures UpdateCheck(caller, id, req, old(equipment.rows)).Failure? ==>
              r == UpdateCheck(caller, id, req, old(equipment.rows)).error && unchanged(equipment)
    ensures UpdateCheck(caller, id, req, old(equipment.rows)).Success? ==>
              var f := UpdateCheck(caller, id, req, old(equipment.rows)).value;
              && equipment.rows == E.Updated(old(equipment.rows), id, f)
              && (!E.UpdateChangesRow(old(equipment.rows), id, f) ==>
                    r == ErrorResponse(500, "Update failed — no rows affected."))
              && (E.UpdateChangesRow(old(equipment.rows), id, f) ==>
                    r == Response(200, map["message" := JStr("Equipment updated."),
                                           "data" := ItemJson(E.Equipment(id, f), P.FindByProductId(images.rows, id))]))
  {
    var check := UpdateCheck(caller, id, req, equipment.rows);
    if check.Failure? {
      return check.error;
    }
    var fields := check.value;
    var before := equipment.rows;
    var updated := equipment.Update(id, fields);
    match updated {
      case Failure(e) =>
        assert false;
      case Success(ok) =>
        if !ok {
          return ErrorResponse(500, "Update failed — no rows affected.");
        }
        E.FindAfterUpdate(before, id, fields, id + 1);
        var item := E.FindById(equipment.rows, id);
        r := Response(200, map["message" := JStr("Equipment updated."),
                               "data" := ItemJson(item.value, P.FindByProductId(images.rows, id))]);
    }
  }

  /** The files named by `paths`, which `destroy` removes one by one. */
  ghost function PathSet(paths: seq<string>): set<string> {
    set p | p in paths
  }

  /** The `foreach` of `destroy` that unlinks each existing file. */
  method RemoveFiles(store: Uploads.FileStore, paths: seq<string>)
    modifies store
    ensures store.files == old(store.files) - PathSet(paths)
  {
    var i := 0;
    while i < |paths|
      invariant 0 <= i <= |paths|
      invariant store.files == old(store.files) - PathSet(paths[..i])
    {
      assert PathSet(paths[..i + 1]) == PathSet(paths[..i]) + {paths[i]} by {
        assert paths[..i + 1] == paths[..i] + [paths[i]];
      }
      store.RemoveIfExists(paths[i]);
      i := i + 1;
    }
    assert paths[..i] == paths;
  }

  /** `destroy`: admin, 404, then the product's image rows, then their files, then
      the product row. */
  method Destroy(caller: Caller, id: int, equipment: E.EquipmentTable, images: P.ImageTable, store: Uploads.FileStore) returns (r: Response)
    requires equipment.Valid() && images.Valid()
    modifies equipment, images, store
    ensures equipment.Valid() && images.Valid()
    ensures caller.adminGate.Some? ==>
              r == caller.adminGate.value && unchanged(equipment, images, store)
    ensures caller.adminGate.None? && E.FindById(old(equipment.rows), id).None? ==>
              r == ErrorResponse(404, "Equipment not found.") && unchanged(equipment, images, store)
    ensures caller.adminGate.None? && E.FindById(old(equipment.rows), id).Some? ==>
              && r == Response(200, map["message" := JStr("Equipment deleted.")])
              && equipment.rows == E.Deleted(old(equipment.rows), id)
              && images.rows == P.WithoutProduct(old(images.rows), id)
              && store.files == old(store.files) - PathSet(P.Paths(P.FindByProductId(old(images.rows), id)))
  {
    if caller.adminGate.Some? {
      return caller.adminGate.value;
    }
    var existing := E.FindById(equipment.rows, id);
    if existing.None? {
      return ErrorResponse(404, "Equipment not found.");
    }
    var imagePaths := images.DeleteByProductId(id);
    RemoveFiles(store, imagePaths);
    var ok := equipment.Delete(id);
    if !ok {
      assert false;
    }
    r := Response(200, map["message" := JStr("Equipment deleted.")]);
  }

  /** `statistics`. `stats` is what the undefined `getStatistics` returns. */
  method Statistics(caller: Caller, stats: Json) returns (r: Response)
    ensures caller.adminGate.Some? ==> r == caller.adminGate.value
    ensures caller.adminGate.None? ==> r == Response(200, map["data" := stats])
  {
    if caller.adminGate.Some? {
      return caller.adminGate.value;
    }
    r := Response(200, map["data" := stats]);
  }

  /** `byCategory`. `listed` is what the undefined `findByCategoryId` returns. */
  method ByCategory(caller: Caller, listed: seq<Listed>, images: P.ImageTable) returns (r: Response)
    ensures NoUser(caller.session) ==> r == ErrorResponse(401, UnauthorisedMessage)
    ensures !NoUser(caller.session) ==>
      var items := ItemsOf(ForCategory(caller, listed));
      r == Response(200, map["data" := JList(WithImages(items, images.rows)), "count" := JInt(|items|)])
  {
    var gate := RequireAuth(caller.session);
    if gate.Some? {
      return gate.value;
    }
    var items := ItemsOf(ForCategory(caller, listed));
    var data := AttachImages(items, images);
    r := Response(200, map["data" := JList(data), "count" := JInt(|items|)]);
  }
}
