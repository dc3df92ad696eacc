/** `src/models/EquipmentModel.php`: the `equipment` table, its input validator and
    its uniqueness probe. */
module EquipmentModel {
  import opened Wrappers
  import opened Text
  import opened Db
  import opened AuthConfig
  import Html
  import Calendar
  import Seqs

  const Categories: seq<string> :=
    ["Desktop", "Laptop", "Monitor", "Printer", "Peripheral", "Server", "Network", "Other"]

  const Statuses: seq<string> := ["Available", "In Use", "Under Maintenance", "Retired"]

  /** The six columns the validator produces and the writes store. */
  datatype EquipmentFields = EquipmentFields(
    name: string,
    category: string,
    brand: string,
    serialNumber: string,
    status: string,
    purchaseDate: string)

  /** A row of `equipment`; `created_at`/`updated_at` are the row's place in `rows`. */
  datatype Equipment = Equipment(id: int, fields: EquipmentFields)

  // ---------------------------------------------------------------------------
  // validate()
  // ---------------------------------------------------------------------------

  /** `^[A-Za-z0-9\-_]+$` on a trimmed value. */
  predicate IsSerialText(s: string) {
    |s| > 0 && forall i :: 0 <= i < |s| ==> IsAsciiLetter(s[i]) || IsDigit(s[i]) || s[i] == '-' || s[i] == '_'
  }

  /** Errors for a trimmed text field that is required and limited to `max` bytes. */
  function RequiredTextErrors(field: string, value: string, max: nat): (e: seq<string>)
    ensures |e| <= 1
    ensures e == [] <==> value != "" && ByteLength(value) <= max
  {
    if value == "" then [field + " is required."]
    else if ByteLength(value) > max then [field + " must be ≤ " + NatToString(max) + " characters."]
    else []
  }

  function CategoryErrors(category: string): (e: seq<string>)
    ensures |e| <= 1 && (e == [] <==> category in Categories)
  {
    if category in Categories then [] else ["category must be one of: " + Join(", ", Categories)]
  }

  /** The three serial checks are alternatives: at most one of them is reported. */
  function SerialErrors(serial: string): (e: seq<string>)
    ensures |e| <= 1
    ensures e == [] <==> serial != "" && ByteLength(serial) <= 100 && IsSerialText(serial)
  {
    if serial == "" then ["serial_number is required."]
    else if ByteLength(serial) > 100 then ["serial_number must be ≤ 100 characters."]
    else if !IsSerialText(serial) then ["serial_number may only contain letters, digits, hyphens, underscores."]
    else []
  }

  function StatusErrors(status: string): (e: seq<string>)
    ensures |e| <= 1 && (e == [] <==> status in Statuses)
  {
    if status in Statuses then [] else ["status must be one of: " + Join(", ", Statuses)]
  }

  function DateErrors(date: string): (e: seq<string>)
    ensures |e| <= 1 && (e == [] <==> Calendar.IsValidDate(date))
  {
    if date == "" then ["purchase_date is required (YYYY-MM-DD)."]
    else if !Calendar.IsValidDate(date) then ["purchase_date must be a valid date in YYYY-MM-DD format."]
    else []
  }

  /** The trimmed values the validator reads; a missing status reads as 'Available'. */
  function NameOf(input: Body): string { Trim(Get(input, "name", "")) }
  function CategoryOf(input: Body): string { Trim(Get(input, "category", "")) }
  function BrandOf(input: Body): string { Trim(Get(input, "brand", "")) }
  function SerialOf(input: Body): string { Trim(Get(input, "serial_number", "")) }
  function StatusOf(input: Body): string { Trim(Get(input, "status", "Available")) }
  function DateOf(input: Body): string { Trim(Get(input, "purchase_date", "")) }

  /** The input rules, field by field, independent of how errors are reported. */
  predicate IsAcceptable(input: Body) {
    var name := NameOf(input);
    var brand := BrandOf(input);
    var serial := SerialOf(input);
    && name != "" && ByteLength(name) <= 150
    && CategoryOf(input) in Categories
    && brand != "" && ByteLength(brand) <= 80
    && serial != "" && ByteLength(serial) <= 100 && IsSerialText(serial)
    && StatusOf(input) in Statuses
    && Calendar.IsValidDate(DateOf(input))
  }

  /** Every error, in field order. */
  function Errors(input: Body): (e: seq<string>)
    ensures |e| <= 6
    ensures e == [] <==> IsAcceptable(input)
  {
    RequiredTextErrors("name", NameOf(input), 150)
    + CategoryErrors(CategoryOf(input))
    + RequiredTextErrors("brand", BrandOf(input), 80)
    + SerialErrors(SerialOf(input))
    + StatusErrors(StatusOf(input))
    + DateErrors(DateOf(input))
  }

  /** The data `validate` returns: `name` and `brand` HTML-escaped, the other
      fields as trimmed. */
  function Cleaned(input: Body): EquipmentFields {
    EquipmentFields(
      Html.Escape(NameOf(input)), CategoryOf(input), Html.Escape(BrandOf(input)),
      SerialOf(input), StatusOf(input), DateOf(input))
  }

  /** `EquipmentModel::validate`: all errors joined with a space, or the cleaned
      data. */
  function Validate(input: Body): Result<EquipmentFields, string> {
    var errs := Errors(input);
    if errs != [] then Failure(Join(" ", errs)) else Success(Cleaned(input))
  }

  /** `validate` succeeds exactly on acceptable input; a failure reports every error
      in field order, and a success returns the cleaned data. */
  lemma ValidateMeaning(input: Body)
    ensures Validate(input).Success? <==> IsAcceptable(input)
    ensures Validate(input).Failure? ==> Validate(input).error == Join(" ", Errors(input))
    ensures Validate(input).Success? ==> Validate(input).value == Cleaned(input)
  {
  }

  /** What a stored row looks like: the value each field has after validation. */
  predicate IsStoredForm(f: EquipmentFields) {
    && f.category in Categories
    && f.status in Statuses
    && IsSerialText(f.serialNumber) && ByteLength(f.serialNumber) <= 100
    && Calendar.IsValidDate(f.purchaseDate)
    && Html.IsInert(f.name) && Html.IsInert(f.brand)
  }

  /** Validated data is in stored form, and the escaped text decodes back to the
      trimmed input. */
  lemma {:induction false} ValidatedIsStoredForm(input: Body)
    requires Validate(input).Success?
    ensures IsStoredForm(Validate(input).value)
    ensures Html.Unescape(Validate(input).value.name) == NameOf(input)
    ensures Html.Unescape(Validate(input).value.brand) == BrandOf(input)
  {
    Html.UnescapeEscape(NameOf(input));
    Html.UnescapeEscape(BrandOf(input));
  }

  /** A body without `status` is validated as if it said 'Available'. */
  lemma StatusDefaultsToAvailable(input: Body)
    requires "status" !in input
    ensures StatusOf(input) == "Available"
    ensures Validate(input).Success? ==> Validate(input).value.status == "Available"
  {
    assert Get(input, "status", "Available") == "Available";
    TrimByUntouched("Available", IsPhpSpace);
    ValidateMeaning(input);
  }

  /** February 29th of a common year fails, whatever the other fields say. */
  lemma NonexistentDateRejected(input: Body)
    requires "purchase_date" in input && input["purchase_date"] == "2023-02-29"
    ensures Validate(input).Failure?
  {
    var d := "2023-02-29";
    TrimByUntouched(d, IsPhpSpace);
    assert DateOf(input) == d;
    Calendar.FormattedDateValid(2023, 2, 29);
    assert Calendar.FormatDate(2023, 2, 29) == d;
    assert !Calendar.IsValidDate(d);
    ValidateMeaning(input);
  }

  // ---------------------------------------------------------------------------
  // Queries
  // ---------------------------------------------------------------------------

  /** `findById`: the row with that id, if any. */
  function FindById(rows: seq<Equipment>, id: int): (r: Option<Equipment>)
    ensures r.Some? ==> r.value in rows && r.value.id == id
    ensures r.None? <==> forall i :: 0 <= i < |rows| ==> rows[i].id != id
  {
    match Seqs.FirstIndex(rows, (e: Equipment) => e.id == id)
    case None => None
    case Some(k) => Some(rows[k])
  }

  /** `findAll`: every row, newest first. */
  function FindAll(rows: seq<Equipment>): (r: seq<Equipment>)
    ensures |r| == |rows| && multiset(r) == multiset(rows)
    ensures forall i :: 0 <= i < |r| ==> r[i] == rows[|rows| - 1 - i]
  {
    Seqs.ReversePermutation(rows);
    Seqs.Reverse(rows)
  }

  /** `serialExists($serial, $excludeId)`: some row other than `excludeId` has
      exactly this serial number. */
  function SerialExists(rows: seq<Equipment>, serial: string, excludeId: Option<int>): (b: bool)
    ensures b <==> exists i :: 0 <= i < |rows| && rows[i].fields.serialNumber == serial
                               && (excludeId.None? || rows[i].id != excludeId.value)
  {
    Seqs.Any(rows, (e: Equipment) => e.fields.serialNumber == serial && (excludeId.None? || e.id != excludeId.value))
  }

  /** A row's own serial never conflicts with itself. */
  lemma OwnSerialNeverConflicts(rows: seq<Equipment>, id: int, f: EquipmentFields)
    requires UniqueKeys(rows)
    requires exists i :: 0 <= i < |rows| && rows[i] == Equipment(id, f)
    ensures SerialExists(rows, f.serialNumber, None)
    ensures !SerialExists(rows, f.serialNumber, Some(id))
  {
    var i :| 0 <= i < |rows| && rows[i] == Equipment(id, f);
    assert rows[i].fields.serialNumber == f.serialNumber;
  }

  // ---------------------------------------------------------------------------
  // The table
  // ---------------------------------------------------------------------------

  /** No two rows share an id. */
  predicate DistinctIds(rows: seq<Equipment>) {
    forall i, j :: 0 <= i < j < |rows| ==> rows[i].id != rows[j].id
  }

  /** Ids are distinct (primary key) and so are serial numbers (unique index). */
  predicate UniqueKeys(rows: seq<Equipment>) {
    && DistinctIds(rows)
    && (forall i, j :: 0 <= i < j < |rows| ==> rows[i].fields.serialNumber != rows[j].fields.serialNumber)
  }

  /** The rows after `UPDATE … WHERE id = :id` sets all six columns. */
  function Updated(rows: seq<Equipment>, id: int, f: EquipmentFields): (r: seq<Equipment>)
    ensures |r| == |rows|
    ensures forall i :: 0 <= i < |rows| ==> r[i].id == rows[i].id
    ensures forall i :: 0 <= i < |rows| ==> r[i].fields == if rows[i].id == id then f else rows[i].fields
  {
    if rows == [] then []
    else [if rows[0].id == id then Equipment(id, f) else rows[0]] + Updated(rows[1..], id, f)
  }

  /** The rows after `DELETE … WHERE id = ?`. */
  function Deleted(rows: seq<Equipment>, id: int): (r: seq<Equipment>)
    ensures forall e :: e in r <==> e in rows && e.id != id
  {
    Seqs.FilterMembership(rows, (e: Equipment) => e.id != id);
    Seqs.Filter(rows, (e: Equipment) => e.id != id)
  }

  /** MySQL's affected-rows count for the update: a row matched and a value changed. */
  predicate UpdateChangesRow(rows: seq<Equipment>, id: int, f: EquipmentFields) {
    exists i :: 0 <= i < |rows| && rows[i].id == id && rows[i].fields != f
  }

  /** After an update the row reads back with the new values; every other id reads
      back unchanged. */
  lemma FindAfterUpdate(rows: seq<Equipment>, id: int, f: EquipmentFields, other: int)
    requires UniqueKeys(rows) && FindById(rows, id).Some? && other != id
    ensures FindById(Updated(rows, id, f), id) == Some(Equipment(id, f))
    ensures FindById(Updated(rows, id, f), other) == FindById(rows, other)
  {
    UpdatedKeepsIds(rows, id, f);
    FindUpdatedRow(rows, id, f);
    FindOtherAfterUpdate(rows, id, f, other);
  }

  lemma UpdatedKeepsIds(rows: seq<Equipment>, id: int, f: EquipmentFields)
    requires DistinctIds(rows)
    ensures DistinctIds(Updated(rows, id, f))
  {
  }

  lemma FindUpdatedRow(rows: seq<Equipment>, id: int, f: EquipmentFields)
    requires FindById(rows, id).Some?
    requires DistinctIds(Updated(rows, id, f))
    ensures FindById(Updated(rows, id, f), id) == Some(Equipment(id, f))
  {
    var r := Updated(rows, id, f);
    var e := FindById(rows, id).value;
    var k :| 0 <= k < |rows| && rows[k] == e;
    assert r[k] == Equipment(id, f);
    IdsUnique(r, k);
  }

  lemma FindOtherAfterUpdate(rows: seq<Equipment>, id: int, f: EquipmentFields, other: int)
    requires DistinctIds(rows)
    requires DistinctIds(Updated(rows, id, f))
    requires other != id
    ensures FindById(Updated(rows, id, f), other) == FindById(rows, other)
  {
    var r := Updated(rows, id, f);
    match FindById(rows, other) {
      case None =>
      case Some(e) =>
        var m :| 0 <= m < |rows| && rows[m] == e;
        assert r[m] == e;
        IdsUnique(rows, m);
        IdsUnique(r, m);
    }
  }

  lemma IdsUnique(rows: seq<Equipment>, k: int)
    requires 0 <= k < |rows|
    requires DistinctIds(rows)
    ensures FindById(rows, rows[k].id) == Some(rows[k])
  {
  }

  /** After a delete the id is gone and every other id reads back unchanged. */
  lemma DeleteRemovesOnlyThatRow(rows: seq<Equipment>, id: int, other: int)
    requires UniqueKeys(rows) && other != id
    ensures FindById(Deleted(rows, id), id).None?
    ensures FindById(Deleted(rows, id), other) == FindById(rows, other)
  {
    var r := Deleted(rows, id);
    match FindById(rows, other) {
      case None =>
      case Some(e) =>
        assert e in r;
        var m :| 0 <= m < |r| && r[m] == e;
        DeletedKeepsKeys(rows, id);
        IdsUnique(r, m);
    }
  }

  /** Deleting keeps both keys unique. */
  lemma DeletedKeepsKeys(rows: seq<Equipment>, id: int)
    requires UniqueKeys(rows)
    ensures UniqueKeys(Deleted(rows, id))
  {
    var r := Deleted(rows, id);
    Seqs.FilterIsSubsequence(rows, (e: Equipment) => e.id != id);
    Seqs.SubsequenceKeepsKeysDistinct(r, rows, (e: Equipment) => e.id);
    Seqs.SubsequenceKeepsKeysDistinct(r, rows, (e: Equipment) => e.fields.serialNumber);
  }

  /** The `equipment` table, rows in insertion order, with its auto-increment
      counter. */
  class EquipmentTable {
    var rows: seq<Equipment>
    var nextId: int

    ghost predicate Valid()
      reads this
    {
      && nextId >= 1
      && (forall i :: 0 <= i < |rows| ==> 1 <= rows[i].id < nextId)
      && UniqueKeys(rows)
    }

    constructor ()
      ensures Valid() && rows == [] && nextId == 1
    {
      rows := [];
      nextId := 1;
    }

    /** `create`: inserts the row and returns its new id; the unique index on
        `serial_number` rejects a duplicate with a `PDOException`. */
    method Create(f: EquipmentFields) returns (r: Result<int, DbError>)
      requires Valid()
      modifies this
      ensures Valid()
      ensures SerialExists(old(rows), f.serialNumber, None) ==>
                r == Failure(DuplicateKey("serial_number")) && rows == old(rows) && nextId == old(nextId)
      ensures !SerialExists(old(rows), f.serialNumber, None) ==>
                r == Success(old(nextId)) && rows == old(rows) + [Equipment(old(nextId), f)]
                && nextId == old(nextId) + 1
    {
      if SerialExists(rows, f.serialNumber, None) {
        return Failure(DuplicateKey("serial_number"));
      }
      r := Success(nextId);
      rows := rows + [Equipment(nextId, f)];
      nextId := nextId + 1;
    }

    /** `update`: overwrites all six columns of the row with that id; returns whether
        a row was affected, i.e. matched and changed. An id no row has matches
        nothing: no unique-index error, no change, and false. */
    method Update(id: int, f: EquipmentFields) returns (r: Result<bool, DbError>)
      requires Valid()
      modifies this
      ensures Valid() && nextId == old(nextId)
      ensures FindById(old(rows), id).None? ==> r == Success(false) && rows == old(rows)
      ensures FindById(old(rows), id).Some? && SerialExists(old(rows), f.serialNumber, Some(id)) ==>
                r == Failure(DuplicateKey("serial_number")) && rows == old(rows)
      ensures FindById(old(rows), id).Some? && !SerialExists(old(rows), f.serialNumber, Some(id)) ==>
                r == Success(UpdateChangesRow(old(rows), id, f)) && rows == Updated(old(rows), id, f)
    {
      if FindById(rows, id).None? {
        return Success(false);
      }
      if SerialExists(rows, f.serialNumber, Some(id)) {
        return Failure(DuplicateKey("serial_number"));
      }
      r := Success(UpdateChangesRow(rows, id, f));
      rows := Updated(rows, id, f);
      assert forall i, j :: 0 <= i < j < |rows| ==> rows[i].fields.serialNumber != rows[j].fields.serialNumber by {
        forall i, j | 0 <= i < j < |rows|
          ensures rows[i].fields.serialNumber != rows[j].fields.serialNumber
        {
          var o := old(rows);
          if o[i].id == id {
            assert o[j].id != id;
          } else if o[j].id == id {
            assert o[i].id != id;
          }
        }
      }
    }

    /** `delete`: removes the row with that id; returns whether one was removed. */
    method Delete(id: int) returns (removed: bool)
      requires Valid()
      modifies this
      ensures Valid() && nextId == old(nextId)
      ensures removed <==> FindById(old(rows), id).Some?
      ensures rows == Deleted(old(rows), id)
    {
      removed := FindById(rows, id).Some?;
      DeletedKeepsKeys(rows, id);
      rows := Deleted(rows, id);
    }
  }
}
