/** `src/models/CategoryModel.php`: the `categories` table and its validator. */
module CategoryModel {
  import opened Wrappers
  import opened Text
  import opened Db
  import opened AuthConfig
  import Html
  import Seqs
  import Catalog

  /** The two columns a category is written with. */
  datatype CategoryFields = CategoryFields(name: string, description: string)

  /** A row of `categories`. */
  datatype Category = Category(id: int, fields: CategoryFields)

  // ---------------------------------------------------------------------------
  // validate()
  // ---------------------------------------------------------------------------

  function NameErrors(name: string): (e: seq<string>)
    ensures |e| <= 1
    ensures e == [] <==> name != "" && ByteLength(name) <= 100
  {
    if name == "" then ["name is required."]
    else if ByteLength(name) > 100 then ["name must be ≤ 100 characters."]
    else []
  }

  /** The description is optional. */
  function DescriptionErrors(description: string): (e: seq<string>)
    ensures |e| <= 1 && (e == [] <==> ByteLength(description) <= 1000)
  {
    if ByteLength(description) > 1000 then ["description must be ≤ 1000 characters."] else []
  }

  function NameOf(input: Body): string { Trim(Get(input, "name", "")) }
  function DescriptionOf(input: Body): string { Trim(Get(input, "description", "")) }

  predicate IsAcceptable(input: Body) {
    && NameOf(input) != "" && ByteLength(NameOf(input)) <= 100
    && ByteLength(DescriptionOf(input)) <= 1000
  }

  function Errors(input: Body): (e: seq<string>)
    ensures |e| <= 2
    ensures e == [] <==> IsAcceptable(input)
  {
    NameErrors(NameOf(input)) + DescriptionErrors(DescriptionOf(input))
  }

  /** `CategoryModel::validate`: every error joined by a space, or both fields
      trimmed and HTML-escaped. */
  function Validate(input: Body): (r: Result<CategoryFields, string>)
    ensures r.Success? <==> IsAcceptable(input)
    ensures r.Failure? ==> r.error == Join(" ", Errors(input))
    ensures r.Success? ==> r.value == CategoryFields(Html.Escape(NameOf(input)), Html.Escape(DescriptionOf(input)))
  {
    var errs := Errors(input);
    if errs != [] then Failure(Join(" ", errs))
    else Success(CategoryFields(Html.Escape(NameOf(input)), Html.Escape(DescriptionOf(input))))
  }

  /** A validated category is never empty-named, holds no raw markup, and decodes
      back to exactly the trimmed input. */
  lemma ValidatedDecodes(input: Body)
    requires Validate(input).Success?
    ensures var f := Validate(input).value;
      && f.name != "" && Html.IsInert(f.name) && Html.IsInert(f.description)
      && Html.Unescape(f.name) == NameOf(input)
      && Html.Unescape(f.description) == DescriptionOf(input)
  {
    Html.UnescapeEscape(NameOf(input));
    Html.UnescapeEscape(DescriptionOf(input));
  }

  // ---------------------------------------------------------------------------
  // Queries
  // ---------------------------------------------------------------------------

  function FindById(rows: seq<Category>, id: int): (r: Option<Category>)
    ensures r.Some? ==> r.value in rows && r.value.id == id
    ensures r.None? <==> forall i :: 0 <= i < |rows| ==> rows[i].id != id
  {
    match Seqs.FirstIndex(rows, (c: Category) => c.id == id)
    case None => None
    case Some(k) => Some(rows[k])
  }

  function FindByName(rows: seq<Category>, name: string): (r: Option<Category>)
    ensures r.Some? ==> r.value in rows && r.value.fields.name == name
    ensures r.None? <==> forall i :: 0 <= i < |rows| ==> rows[i].fields.name != name
  {
    match Seqs.FirstIndex(rows, (c: Category) => c.fields.name == name)
    case None => None
    case Some(k) => Some(rows[k])
  }

  /** `findAll`: every category, ascending by name. */
  function FindAll(rows: seq<Category>): (r: seq<Category>)
    ensures Seqs.SortedBy(r, (c: Category) => c.fields.name)
    ensures multiset(r) == multiset(rows)
  {
    Seqs.SortBy(rows, (c: Category) => c.fields.name)
  }

  /** `nameExists($name, $excludeId)`. */
  function NameExists(rows: seq<Category>, name: string, excludeId: Option<int>): (b: bool)
    ensures b <==> exists i :: 0 <= i < |rows| && rows[i].fields.name == name
                               && (excludeId.None? || rows[i].id != excludeId.value)
  {
    Seqs.Any(rows, (c: Category) => c.fields.name == name && (excludeId.None? || c.id != excludeId.value))
  }

  /** `countProducts($categoryId)`: `COUNT(*)` of the products in that category. */
  function CountProducts(products: seq<Catalog.Product>, categoryId: int): (n: nat)
    ensures n <= |products|
    ensures n == 0 <==> forall i :: 0 <= i < |products| ==> products[i].categoryId != categoryId
  {
    Seqs.Count(products, (p: Catalog.Product) => p.categoryId == categoryId)
  }

  // ---------------------------------------------------------------------------
  // The table
  // ---------------------------------------------------------------------------

  /** No two rows share an id. */
  predicate DistinctIds(rows: seq<Category>) {
    forall i, j :: 0 <= i < j < |rows| ==> rows[i].id != rows[j].id
  }

  predicate UniqueKeys(rows: seq<Category>) {
    && DistinctIds(rows)
    && (forall i, j :: 0 <= i < j < |rows| ==> rows[i].fields.name != rows[j].fields.name)
  }

  /** The rows after `UPDATE categories SET name, description WHERE id`. */
  function Updated(rows: seq<Category>, id: int, f: CategoryFields): (r: seq<Category>)
    ensures |r| == |rows|
    ensures forall i :: 0 <= i < |rows| ==> r[i].id == rows[i].id
    ensures forall i :: 0 <= i < |rows| ==> r[i].fields == if rows[i].id == id then f else rows[i].fields
  {
    if rows == [] then []
    else [if rows[0].id == id then Category(id, f) else rows[0]] + Updated(rows[1..], id, f)
  }

  function Deleted(rows: seq<Category>, id: int): (r: seq<Category>)
    ensures forall c :: c in r <==> c in rows && c.id != id
  {
    Seqs.FilterMembership(rows, (c: Category) => c.id != id);
    Seqs.Filter(rows, (c: Category) => c.id != id)
  }

  /** MySQL's affected-rows count for the update: a row matched and a value changed. */
  predicate UpdateChangesRow(rows: seq<Category>, id: int, f: CategoryFields) {
    exists i :: 0 <= i < |rows| && rows[i].id == id && rows[i].fields != f
  }

  /** After an update the row reads back with both new columns and every other
      category reads back as before. */
  lemma FindAfterUpdate(rows: seq<Category>, id: int, f: CategoryFields, other: int)
    requires UniqueKeys(rows) && FindById(rows, id).Some? && other != id
    ensures FindById(Updated(rows, id, f), id) == Some(Category(id, f))
    ensures FindById(Updated(rows, id, f), other) == FindById(rows, other)
  {
    UpdatedKeepsIds(rows, id, f);
    FindUpdatedRow(rows, id, f);
    FindOtherAfterUpdate(rows, id, f, other);
  }

  lemma UpdatedKeepsIds(rows: seq<Category>, id: int, f: CategoryFields)
    requires DistinctIds(rows)
    ensures DistinctIds(Updated(rows, id, f))
  {
  }

  lemma FindUpdatedRow(rows: seq<Category>, id: int, f: CategoryFields)
    requires FindById(rows, id).Some?
    requires DistinctIds(Updated(rows, id, f))
    ensures FindById(Updated(rows, id, f), id) == Some(Category(id, f))
  {
    var r := Updated(rows, id, f);
    var e := FindById(rows, id).value;
    var k :| 0 <= k < |rows| && rows[k] == e;
    assert r[k] == Category(id, f);
    IdsUnique(r, k);
  }

  lemma FindOtherAfterUpdate(rows: seq<Category>, id: int, f: CategoryFields, other: int)
    requires DistinctIds(rows)
    requires DistinctIds(Updated(rows, id, f))
    requires other != id
    ensures FindById(Updated(rows, id, f), other) == FindById(rows, other)
  {
    var r := Updated(rows, id, f);
    match FindById(rows, other) {
      case None =>
      case Some(e) =>
        var m :| 0 <= m < |rows| && rows[m] == e;
        assert r[m] == e;
        IdsUnique(rows, m);
        IdsUnique(r, m);
    }
  }

  lemma IdsUnique(rows: seq<Category>, k: int)
    requires 0 <= k < |rows|
    requires DistinctIds(rows)
    ensures FindById(rows, rows[k].id) == Some(rows[k])
  {
  }

  /** The `categories` table, rows in insertion order, with its auto-increment counter. */
  class CategoryTable {
    var rows: seq<Category>
    var nextId: int

    ghost predicate Valid()
      reads this
    {
      && nextId >= 1
      && (forall i :: 0 <= i < |rows| ==> 1 <= rows[i].id < nextId)
      && UniqueKeys(rows)
    }

    constructor ()
      ensures Valid() && rows == [] && nextId == 1
    {
      rows := [];
      nextId := 1;
    }

    /** `create`: inserts the row and returns its id; the unique index on `name`
        rejects a duplicate. */
    method Create(f: CategoryFields) returns (r: Result<int, DbError>)
      requires Valid()
      modifies this
      ensures Valid()
      ensures NameExists(old(rows), f.name, None) ==>
                r == Failure(DuplicateKey("name")) && rows == old(rows) && nextId == old(nextId)
      ensures !NameExists(old(rows), f.name, None) ==>
                r == Success(old(nextId)) && rows == old(rows) + [Category(old(nextId), f)]
                && nextId == old(nextId) + 1
    {
      if NameExists(rows, f.name, None) {
        return Failure(DuplicateKey("name"));
      }
      r := Success(nextId);
      rows := rows + [Category(nextId, f)];
      nextId := nextId + 1;
    }

    /** `update`: overwrites both columns of that one row; reports whether it was
        matched and changed. An id no row has matches nothing, so neither the
        unique index nor anything else is touched and the result is false. */
    method Update(id: int, f: CategoryFields) returns (r: Result<bool, DbError>)
      requires Valid()
      modifies this
      ensures Valid() && nextId == old(nextId)
      ensures FindById(old(rows), id).None? ==> r == Success(false) && rows == old(rows)
      ensures FindById(old(rows), id).Some? && NameExists(old(rows), f.name, Some(id)) ==>
                r == Failure(DuplicateKey("name")) && rows == old(rows)
      ensures FindById(old(rows), id).Some? && !NameExists(old(rows), f.name, Some(id)) ==>
                r == Success(UpdateChangesRow(old(rows), id, f)) && rows == Updated(old(rows), id, f)
    {
      if FindById(rows, id).None? {
        return Success(false);
      }
      if NameExists(rows, f.name, Some(id)) {
        return Failure(DuplicateKey("name"));
      }
      r := Success(UpdateChangesRow(rows, id, f));
      var o := rows;
      rows := Updated(rows, id, f);
      assert forall i, j :: 0 <= i < j < |rows| ==> rows[i].fields.name != rows[j].fields.name by {
        forall i, j | 0 <= i < j < |rows| ensures rows[i].fields.name != rows[j].fields.name {
          if o[i].id == id {
            assert o[j].id != id;
          } else if o[j].id == id {
            assert o[i].id != id;
          }
        }
      }
    }

    /** `delete`: the foreign key from `products.category_id` makes the server refuse
        to delete a category that products still reference; otherwise the row goes
        and the result says whether there was one. */
    method Delete(id: int, products: seq<Catalog.Product>) returns (r: Result<bool, DbError>)
      requires Valid()
      modifies this
      ensures Valid() && nextId == old(nextId)
      ensures FindById(old(rows), id).Some? && CountProducts(products, id) > 0 ==>
                r == Failure(ForeignKey("products")) && rows == old(rows)
      ensures !(FindById(old(rows), id).Some? && CountProducts(products, id) > 0) ==>
                r == Success(FindById(old(rows), id).Some?) && rows == Deleted(old(rows), id)
    {
      if FindById(rows, id).Some? && CountProducts(products, id) > 0 {
        return Failure(ForeignKey("products"));
      }
      r := Success(FindById(rows, id).Some?);
      var kept := Deleted(rows, id);
      Seqs.FilterIsSubsequence(rows, (c: Category) => c.id != id);
      Seqs.SubsequenceKeepsKeysDistinct(kept, rows, (c: Category) => c.id);
      Seqs.SubsequenceKeepsKeysDistinct(kept, rows, (c: Category) => c.fields.name);
      rows := kept;
    }
  }
}
