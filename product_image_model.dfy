/** `src/models/ProductImageModel.php`: the `product_images` table. A product has at
    most one primary image; `create` and `setPrimary` keep that by clearing the
    product's flags before setting one. */
module ProductImageModel {
  import opened Wrappers
  import Seqs
  import opened AuthConfig

  /** A row of `product_images`; rows are kept in insertion (`created_at`) order. */
  datatype Image = Image(id: int, productId: int, path: string, isPrimary: bool)

  predicate OfProduct(x: Image, productId: int) { x.productId == productId }

  /** No product has two primary images. */
  predicate AtMostOnePrimary(rows: seq<Image>) {
    forall i, j :: 0 <= i < |rows| && 0 <= j < |rows| && i != j && rows[i].isPrimary && rows[j].isPrimary
      ==> rows[i].productId != rows[j].productId
  }

  predicate IdsUnique(rows: seq<Image>) {
    forall i, j :: 0 <= i < j < |rows| ==> rows[i].id != rows[j].id
  }

  /** The row as `fetchAll` hands it to `json_encode`. */
  function ToJson(x: Image): Json {
    JObject(map["id" := JInt(x.id), "product_id" := JInt(x.productId),
                "image_path" := JStr(x.path), "is_primary" := JInt(if x.isPrimary then 1 else 0)])
  }

  function ListToJson(images: seq<Image>): (r: seq<Json>)
    ensures |r| == |images| && forall i :: 0 <= i < |images| ==> r[i] == ToJson(images[i])
  {
    if images == [] then [] else [ToJson(images[0])] + ListToJson(images[1..])
  }

  // ---------------------------------------------------------------------------
  // Queries
  // ---------------------------------------------------------------------------

  function FindById(rows: seq<Image>, id: int): (r: Option<Image>)
    ensures r.Some? ==> r.value in rows && r.value.id == id
    ensures r.None? <==> forall i :: 0 <= i < |rows| ==> rows[i].id != id
  {
    match Seqs.FirstIndex(rows, (x: Image) => x.id == id)
    case None => None
    case Some(k) => Some(rows[k])
  }

  /** `findPrimaryByProductId`. */
  function FindPrimary(rows: seq<Image>, productId: int): (r: Option<Image>)
    ensures r.Some? ==> r.value in rows && r.value.productId == productId && r.value.isPrimary
    ensures r.None? <==> forall i :: 0 <= i < |rows| ==> !(rows[i].productId == productId && rows[i].isPrimary)
  {
    match Seqs.FirstIndex(rows, (x: Image) => x.productId == productId && x.isPrimary)
    case None => None
    case Some(k) => Some(rows[k])
  }

  /** Primary images followed by non-primary ones: no primary after a non-primary. */
  lemma GroupsInOrder(primary: seq<Image>, others: seq<Image>)
    requires forall i :: 0 <= i < |primary| ==> primary[i].isPrimary
    requires forall i :: 0 <= i < |others| ==> !others[i].isPrimary
    ensures var r := primary + others;
      forall i, j :: 0 <= i < j < |r| && !r[i].isPrimary ==> !r[j].isPrimary
  {
    var r := primary + others;
    assert forall i :: 0 <= i < |primary| ==> r[i] == primary[i];
    assert forall i :: |primary| <= i < |r| ==> r[i] == others[i - |primary|];
  }

  /** The primary images of `s`, then the others, each group in the order of `s`. */
  function PrimaryFirst(s: seq<Image>): (r: seq<Image>)
    ensures multiset(r) == multiset(s)
    ensures forall i, j :: 0 <= i < j < |r| && !r[i].isPrimary ==> !r[j].isPrimary
  {
    var primary := Seqs.Filter(s, (x: Image) => x.isPrimary);
    var others := Seqs.Filter(s, (x: Image) => !x.isPrimary);
    Seqs.FilterPartition(s, (x: Image) => x.isPrimary, (x: Image) => !x.isPrimary);
    GroupsInOrder(primary, others);
    primary + others
  }

  /** `findByProductId`: the product's images, primary first, then the rest in
      insertion order. */
  function FindByProductId(rows: seq<Image>, productId: int): (r: seq<Image>)
    ensures multiset(r) == multiset(Seqs.Filter(rows, (x: Image) => x.productId == productId))
    ensures forall i, j :: 0 <= i < j < |r| && !r[i].isPrimary ==> !r[j].isPrimary
  {
    PrimaryFirst(Seqs.Filter(rows, (x: Image) => x.productId == productId))
  }

  /** Exactly the product's images. */
  lemma FindByProductIdContents(rows: seq<Image>, productId: int)
    ensures forall x :: x in FindByProductId(rows, productId) <==> x in rows && x.productId == productId
  {
    var mine := Seqs.Filter(rows, (x: Image) => x.productId == productId);
    var r := FindByProductId(rows, productId);
    Seqs.FilterMembership(rows, (x: Image) => x.productId == productId);
    assert forall x :: x in r <==> x in multiset(mine);
  }

  /** As many images as `countByProductId` reports. */
  lemma FindByProductIdCount(rows: seq<Image>, productId: int)
    ensures |FindByProductId(rows, productId)| == CountByProductId(rows, productId)
  {
    var mine := Seqs.Filter(rows, (x: Image) => x.productId == productId);
    var r := FindByProductId(rows, productId);
    Seqs.CountIsFilterLength(rows, (x: Image) => x.productId == productId);
    assert |r| == |multiset(r)| == |multiset(mine)| == |mine|;
  }

  /** `array_column($images, 'image_path')`. */
  function Paths(images: seq<Image>): (r: seq<string>)
    ensures |r| == |images| && forall i :: 0 <= i < |images| ==> r[i] == images[i].path
  {
    if images == [] then [] else [images[0].path] + Paths(images[1..])
  }

  /** `countByProductId`. */
  function CountByProductId(rows: seq<Image>, productId: int): (n: nat)
    ensures n <= |rows|
    ensures n == 0 <==> forall i :: 0 <= i < |rows| ==> rows[i].productId != productId
  {
    Seqs.Count(rows, (x: Image) => x.productId == productId)
  }

  /** `hasImages`: some row belongs to the product. */
  function HasImages(rows: seq<Image>, productId: int): (b: bool)
    ensures b <==> exists i :: 0 <= i < |rows| && rows[i].productId == productId
  {
    CountByProductId(rows, productId) > 0
  }

  // ---------------------------------------------------------------------------
  // Writes
  // ---------------------------------------------------------------------------

  /** `UPDATE product_images SET is_primary = 0 WHERE product_id = ?`. */
  function ClearPrimary(rows: seq<Image>, productId: int): (r: seq<Image>)
    ensures |r| == |rows|
    ensures forall i :: 0 <= i < |rows| ==>
      r[i] == if rows[i].productId == productId then rows[i].(isPrimary := false) else rows[i]
  {
    if rows == [] then []
    else [if rows[0].productId == productId then rows[0].(isPrimary := false) else rows[0]]
         + ClearPrimary(rows[1..], productId)
  }

  /** `UPDATE product_images SET is_primary = 1 WHERE id = ?`. */
  function MarkPrimary(rows: seq<Image>, id: int): (r: seq<Image>)
    ensures |r| == |rows|
    ensures forall i :: 0 <= i < |rows| ==>
      r[i] == if rows[i].id == id then rows[i].(isPrimary := true) else rows[i]
  {
    if rows == [] then []
    else [if rows[0].id == id then rows[0].(isPrimary := true) else rows[0]] + MarkPrimary(rows[1..], id)
  }

  /** The rows after `create`. */
  function Created(rows: seq<Image>, productId: int, path: string, isPrimary: bool, newId: int): seq<Image> {
    (if isPrimary then ClearPrimary(rows, productId) else rows) + [Image(newId, productId, path, isPrimary)]
  }

  /** The rows after `setPrimary` found the image `x`. */
  function PrimarySet(rows: seq<Image>, x: Image): seq<Image> {
    MarkPrimary(ClearPrimary(rows, x.productId), x.id)
  }

  /** After creating a primary image, it is the product's only primary image and
      the rows of other products do not change. */
  lemma CreatedPrimaryIsOnlyPrimary(rows: seq<Image>, productId: int, path: string, newId: int)
    ensures var r := Created(rows, productId, path, true, newId);
      && FindPrimary(r, productId) == Some(Image(newId, productId, path, true))
      && (forall i :: 0 <= i < |r| && r[i].productId == productId && r[i].isPrimary ==> i == |rows|)
      && (forall i :: 0 <= i < |rows| && rows[i].productId != productId ==> r[i] == rows[i])
  {
    var r := Created(rows, productId, path, true, newId);
    assert forall i :: 0 <= i < |rows| ==> r[i] == ClearPrimary(rows, productId)[i];
    var f := Seqs.FirstIndex(r, (y: Image) => y.productId == productId && y.isPrimary);
    assert r[|rows|] == Image(newId, productId, path, true);
    assert f.Some? && f.value == |rows|;
  }

  /** A non-primary image is appended and nothing else changes. */
  lemma CreatedPlainChangesNothingElse(rows: seq<Image>, productId: int, path: string, newId: int)
    ensures Created(rows, productId, path, false, newId)[..|rows|] == rows
    ensures FindPrimary(Created(rows, productId, path, false, newId), productId) == FindPrimary(rows, productId)
  {
    var r := Created(rows, productId, path, false, newId);
    assert r[..|rows|] == rows;
    match FindPrimary(rows, productId) {
      case None =>
      case Some(x) =>
        var k :| 0 <= k < |rows| && rows[k] == x;
        var f := Seqs.FirstIndex(r, (y: Image) => y.productId == productId && y.isPrimary);
        assert f.Some? && f.value <= k;
    }
  }

  /** Creating keeps at most one primary per product. */
  lemma CreatedKeepsOnePrimary(rows: seq<Image>, productId: int, path: string, isPrimary: bool, newId: int)
    requires AtMostOnePrimary(rows)
    ensures AtMostOnePrimary(Created(rows, productId, path, isPrimary, newId))
  {
    var r := Created(rows, productId, path, isPrimary, newId);
    if isPrimary {
      assert forall i :: 0 <= i < |rows| ==> r[i] == ClearPrimary(rows, productId)[i];
    }
  }

  /** Clearing a product's flags keeps the table invariant. */
  lemma ClearPrimaryKeepsInvariant(rows: seq<Image>, productId: int, nextId: int)
    requires TableInvariant(rows, nextId)
    ensures TableInvariant(ClearPrimary(rows, productId), nextId)
  {
    var c := ClearPrimary(rows, productId);
    assert forall i :: 0 <= i < |rows| ==>
      c[i].id == rows[i].id && c[i].productId == rows[i].productId && (c[i].isPrimary ==> rows[i].isPrimary);
  }

  /** One row after `setPrimary` on `x`, where `isX` says whether it is `x`'s row. */
  function SetPrimaryRow(row: Image, x: Image, isX: bool): Image {
    if isX then x.(isPrimary := true)
    else if row.productId == x.productId then row.(isPrimary := false)
    else row
  }

  /** `setPrimary` row by row: the image itself becomes primary, the product's other
      images lose the flag, and the rows of other products are kept. */
  lemma PrimarySetPointwise(rows: seq<Image>, x: Image, k: int)
    requires IdsUnique(rows) && 0 <= k < |rows| && rows[k] == x
    ensures |PrimarySet(rows, x)| == |rows|
    ensures forall i :: 0 <= i < |rows| ==> PrimarySet(rows, x)[i] == SetPrimaryRow(rows[i], x, i == k)
  {
    var c := ClearPrimary(rows, x.productId);
    forall i | 0 <= i < |rows| && i != k ensures rows[i].id != x.id {
      if i < k {
        assert rows[i].id != rows[k].id;
      } else {
        assert rows[k].id != rows[i].id;
      }
    }
    assert forall i :: 0 <= i < |rows| ==> c[i].id == rows[i].id;
  }

  /** The first primary image of a product is the only one there is. */
  lemma FindOnlyPrimary(r: seq<Image>, productId: int, k: int)
    requires 0 <= k < |r| && r[k].productId == productId && r[k].isPrimary
    requires forall i :: 0 <= i < |r| && i != k ==> !(r[i].productId == productId && r[i].isPrimary)
    ensures FindPrimary(r, productId) == Some(r[k])
  {
  }

  /** After `setPrimary` on an existing image, that image is its product's only
      primary; the rows of other products are unchanged. */
  lemma PrimarySetIsOnlyPrimary(rows: seq<Image>, x: Image)
    requires IdsUnique(rows) && x in rows
    ensures var r := PrimarySet(rows, x);
      && |r| == |rows|
      && (forall i :: 0 <= i < |r| && r[i].productId == x.productId ==> (r[i].isPrimary <==> r[i].id == x.id))
      && (forall i :: 0 <= i < |rows| && rows[i].productId != x.productId ==> r[i] == rows[i])
      && FindPrimary(r, x.productId) == Some(x.(isPrimary := true))
  {
    var k :| 0 <= k < |rows| && rows[k] == x;
    PrimarySetPointwise(rows, x, k);
    var r := PrimarySet(rows, x);
    forall i | 0 <= i < |rows| && i != k ensures rows[i].id != x.id {
      if i < k {
        assert rows[i].id != rows[k].id;
      } else {
        assert rows[k].id != rows[i].id;
      }
    }
    FindOnlyPrimary(r, x.productId, k);
  }

  /** A primary row after `setPrimary` is the image itself or a primary row of
      another product that was kept as it was. */
  lemma PrimaryAfterSet(rows: seq<Image>, x: Image, k: int, r: seq<Image>, i: int)
    requires 0 <= k < |rows| && rows[k] == x && |r| == |rows| && 0 <= i < |r|
    requires r[i] == SetPrimaryRow(rows[i], x, i == k)
    requires r[i].isPrimary
    ensures i == k || (r[i] == rows[i] && rows[i].isPrimary && rows[i].productId != x.productId)
    ensures r[i].productId == rows[i].productId
  {
  }

  /** `setPrimary` keeps at most one primary per product. */
  lemma PrimarySetKeepsOnePrimary(rows: seq<Image>, x: Image)
    requires IdsUnique(rows) && AtMostOnePrimary(rows) && x in rows
    ensures AtMostOnePrimary(PrimarySet(rows, x))
  {
    var k :| 0 <= k < |rows| && rows[k] == x;
    PrimarySetPointwise(rows, x, k);
    var r := PrimarySet(rows, x);
    forall i, j | 0 <= i < |r| && 0 <= j < |r| && i != j && r[i].isPrimary && r[j].isPrimary
      ensures r[i].productId != r[j].productId
    {
      PrimaryAfterSet(rows, x, k, r, i);
      PrimaryAfterSet(rows, x, k, r, j);
    }
  }

  /** `setPrimary` changes flags only, so ids stay as they were. */
  lemma PrimarySetKeepsIds(rows: seq<Image>, x: Image)
    ensures var r := PrimarySet(rows, x);
      |r| == |rows| && forall i :: 0 <= i < |rows| ==> r[i].id == rows[i].id
  {
    var c := ClearPrimary(rows, x.productId);
    assert forall i :: 0 <= i < |rows| ==> c[i].id == rows[i].id;
  }

  /** Every id was handed out by the auto-increment counter. */
  predicate IdsBelow(rows: seq<Image>, nextId: int) {
    forall i :: 0 <= i < |rows| ==> 1 <= rows[i].id < nextId
  }

  /** What the table keeps true between calls. */
  predicate TableInvariant(rows: seq<Image>, nextId: int) {
    nextId >= 1 && IdsBelow(rows, nextId) && IdsUnique(rows) && AtMostOnePrimary(rows)
  }

  /** Any duplicate-free selection of rows keeps at most one primary per product. */
  lemma SelectionKeepsOnePrimary(kept: seq<Image>, rows: seq<Image>)
    requires IdsUnique(kept) && AtMostOnePrimary(rows)
    requires forall j :: 0 <= j < |kept| ==> kept[j] in rows
    ensures AtMostOnePrimary(kept)
  {
    forall i, j | 0 <= i < |kept| && 0 <= j < |kept| && i != j && kept[i].isPrimary && kept[j].isPrimary
      ensures kept[i].productId != kept[j].productId
    {
      assert kept[i].id != kept[j].id;
      var a :| 0 <= a < |rows| && rows[a] == kept[i];
      var b :| 0 <= b < |rows| && rows[b] == kept[j];
    }
  }

  /** A selection of rows carries only ids the counter handed out. */
  lemma SelectionKeepsIdsBelow(kept: seq<Image>, rows: seq<Image>, nextId: int)
    requires IdsBelow(rows, nextId)
    requires forall j :: 0 <= j < |kept| ==> kept[j] in rows
    ensures IdsBelow(kept, nextId)
  {
    forall j | 0 <= j < |kept| ensures 1 <= kept[j].id < nextId {
      var a :| 0 <= a < |rows| && rows[a] == kept[j];
    }
  }

  /** What a `DELETE` leaves, a subsequence of the rows, keeps the table invariant. */
  lemma SubsequenceKeepsInvariant(kept: seq<Image>, rows: seq<Image>, nextId: int)
    requires TableInvariant(rows, nextId) && Seqs.IsSubsequence(kept, rows)
    ensures TableInvariant(kept, nextId)
  {
    Seqs.SubsequenceMembers(kept, rows);
    Seqs.SubsequenceKeepsKeysDistinct(kept, rows, (x: Image) => x.id);
    SelectionKeepsOnePrimary(kept, rows);
    SelectionKeepsIdsBelow(kept, rows, nextId);
  }

  /** The rows after `DELETE FROM product_images WHERE id = ?`. */
  function WithoutImage(rows: seq<Image>, id: int): (r: seq<Image>)
    ensures forall x :: x in r <==> x in rows && x.id != id
  {
    Seqs.FilterMembership(rows, (x: Image) => x.id != id);
    Seqs.Filter(rows, (x: Image) => x.id != id)
  }

  /** The rows after `DELETE FROM product_images WHERE product_id = ?`. */
  function WithoutProduct(rows: seq<Image>, productId: int): (r: seq<Image>)
    ensures forall x :: x in r <==> x in rows && x.productId != productId
  {
    Seqs.FilterMembership(rows, (x: Image) => x.productId != productId);
    Seqs.Filter(rows, (x: Image) => x.productId != productId)
  }

  /** Deleting an image keeps the table invariant, and deletes nothing when no row
      has the id. */
  lemma RemoveImage(rows: seq<Image>, id: int, nextId: int)
    requires TableInvariant(rows, nextId)
    ensures TableInvariant(WithoutImage(rows, id), nextId)
    ensures FindById(rows, id).None? ==> WithoutImage(rows, id) == rows
  {
    Seqs.FilterIsSubsequence(rows, (x: Image) => x.id != id);
    SubsequenceKeepsInvariant(WithoutImage(rows, id), rows, nextId);
    if FindById(rows, id).None? {
      Seqs.FilterAll(rows, (x: Image) => x.id != id);
    }
  }

  /** Deleting a product's images keeps the table invariant, and deletes nothing when
      the product had no image. */
  lemma RemoveProductImages(rows: seq<Image>, productId: int, nextId: int)
    requires TableInvariant(rows, nextId)
    ensures TableInvariant(WithoutProduct(rows, productId), nextId)
    ensures FindByProductId(rows, productId) == [] ==> WithoutProduct(rows, productId) == rows
  {
    Seqs.FilterIsSubsequence(rows, (x: Image) => x.productId != productId);
    SubsequenceKeepsInvariant(WithoutProduct(rows, productId), rows, nextId);
    if FindByProductId(rows, productId) == [] {
      NoImagesNothingRemoved(rows, productId);
    }
  }

  /** A product without images loses no row. */
  lemma NoImagesNothingRemoved(rows: seq<Image>, productId: int)
    requires FindByProductId(rows, productId) == []
    ensures WithoutProduct(rows, productId) == rows
  {
    FindByProductIdCount(rows, productId);
    Seqs.FilterAll(rows, (x: Image) => x.productId != productId);
  }

  /** The `product_images` table. */
  class ImageTable {
    var rows: seq<Image>
    var nextId: int

    ghost predicate Valid()
      reads this
    {
      TableInvariant(rows, nextId)
    }

    constructor ()
      ensures Valid() && rows == [] && nextId == 1
    {
      rows := [];
      nextId := 1;
    }

    /** `create`: for a primary image, first clears the product's flags; then
        inserts and returns the new id. `insertFails` says whether the server refuses
        the INSERT with a `PDOException`; the flags cleared before it stay cleared,
        since the two statements run outside a transaction. */
    method Create(productId: int, path: string, isPrimary: bool, insertFails: bool) returns (id: Option<int>)
      requires Valid()
      modifies this
      ensures Valid()
      ensures insertFails ==>
                && id.None? && nextId == old(nextId)
                && rows == (if isPrimary then ClearPrimary(old(rows), productId) else old(rows))
      ensures !insertFails ==>
                && id == Some(old(nextId)) && nextId == old(nextId) + 1
                && rows == Created(old(rows), productId, path, isPrimary, old(nextId))
    {
      CreatedKeepsOnePrimary(rows, productId, path, isPrimary, nextId);
      if isPrimary {
        ClearPrimaryKeepsInvariant(rows, productId, nextId);
        rows := ClearPrimary(rows, productId);
      }
      if insertFails {
        return None;
      }
      rows := rows + [Image(nextId, productId, path, isPrimary)];
      id := Some(nextId);
      nextId := nextId + 1;
    }

    /** `setPrimary`: false and no change for an unknown id; otherwise clears the
        product's flags and sets this image's. */
    method SetPrimary(imageId: int) returns (ok: bool)
      requires Valid()
      modifies this
      ensures Valid() && nextId == old(nextId)
      ensures ok <==> FindById(old(rows), imageId).Some?
      ensures !ok ==> rows == old(rows)
      ensures ok ==> rows == PrimarySet(old(rows), FindById(old(rows), imageId).value)
    {
      var image := FindById(rows, imageId);
      if image.None? {
        return false;
      }
      PrimarySetKeepsOnePrimary(rows, image.value);
      PrimarySetKeepsIds(rows, image.value);
      rows := ClearPrimary(rows, image.value.productId);
      rows := MarkPrimary(rows, imageId);
      ok := true;
    }

    /** `delete`: the removed image's path, or `None` when there was no such row. */
    method Delete(id: int) returns (path: Option<string>)
      requires Valid()
      modifies this
      ensures Valid() && nextId == old(nextId)
      ensures path.None? <==> FindById(old(rows), id).None?
      ensures path.Some? ==> path.value == FindById(old(rows), id).value.path
      ensures rows == WithoutImage(old(rows), id)
      ensures path.None? ==> rows == old(rows)
    {
      var image := FindById(rows, id);
      RemoveImage(rows, id, nextId);
      if image.None? {
        return None;
      }
      rows := WithoutImage(rows, id);
      path := Some(image.value.path);
    }

    /** `deleteByProductId`: removes every image of the product and returns their
        paths in `findByProductId` order, `[]` when there were none. */
    method DeleteByProductId(productId: int) returns (paths: seq<string>)
      requires Valid()
      modifies this
      ensures Valid() && nextId == old(nextId)
      ensures paths == Paths(FindByProductId(old(rows), productId))
      ensures |paths| == CountByProductId(old(rows), productId)
      ensures rows == WithoutProduct(old(rows), productId)
    {
      var images := FindByProductId(rows, productId);
      FindByProductIdCount(rows, productId);
      RemoveProductImages(rows, productId, nextId);
      if images == [] {
        return [];
      }
      rows := WithoutProduct(rows, productId);
      paths := Paths(images);
    }
  }
}
