/** `public/js/products.js`: the client's product browser. The page keeps the list of
    available products in a script-level variable and narrows it by category and by
    a search term. */
module ProductsPage {
  import opened Wrappers
  import opened Text
  import Seqs

  /** A JavaScript value in a field of a decoded JSON object: `undefined` when the
      object has no such key. Numbers are integers here. */
  datatype JsValue = Undefined | Null | Num(n: int) | Str(s: string)

  /** One product object of the response. `notes` is `None` when it is `null` or
      missing. */
  datatype Item = Item(
    id: int, name: string, brand: string, serialNumber: string, status: string,
    categoryId: JsValue, notes: Option<string>)

  /** JavaScript `ToNumber` on a string: surrounding whitespace is ignored, the empty
      string is 0, an optionally signed run of decimal digits is its value, and every
      other string is `NaN` (`None`). */
  function StringToNumber(s: string): (r: Option<int>)
    ensures JsTrim(s) == "" ==> r == Some(0)
  {
    var t := JsTrim(s);
    if t == "" then Some(0)
    else if forall i :: 0 <= i < |t| ==> IsDigit(t[i]) then Some(DigitsValue(t))
    else if |t| > 1 && (t[0] == '-' || t[0] == '+') && forall i :: 1 <= i < |t| ==> IsDigit(t[i]) then
      var v := DigitsValue(t[1..]);
      Some(if t[0] == '-' then 0 - v else v)
    else None
  }

  /** `v == s` with JavaScript's loose equality, for a string `s`: a string compares
      exactly, a number compares with `ToNumber(s)`, and `null` and `undefined` equal
      no string. */
  predicate LooseEquals(v: JsValue, s: string) {
    match v
    case Str(t) => t == s
    case Num(n) => StringToNumber(s) == Some(n)
    case Null => false
    case Undefined => false
  }

  /** A select option's value, the decimal rendering of a category id, is loosely
      equal to that id whether the object carries it as a number or as a string. */
  lemma RenderedIdMatches(id: nat)
    ensures LooseEquals(Num(id), NatToString(id))
    ensures LooseEquals(Str(NatToString(id)), NatToString(id))
  {
    var s := NatToString(id);
    TrimByUntouched(s, IsJsSpace);
    NatToStringValue(id);
  }

  /** `p.status === 'Available'` */
  predicate IsAvailable(p: Item) { p.status == "Available" }

  /** The category filter, where `categoryId` is the non-empty selected value. */
  predicate InCategory(p: Item, categoryId: string) { LooseEquals(p.categoryId, categoryId) }

  /** The search filter for a lowercased, non-empty term: the term occurs in the
      lowercased name, brand or serial number, or in the notes when they are present
      and not empty. */
  predicate MatchesTerm(p: Item, term: string) {
    || Contains(AsciiLower(p.name), term)
    || Contains(AsciiLower(p.brand), term)
    || Contains(AsciiLower(p.serialNumber), term)
    || (p.notes.Some? && p.notes.value != "" && Contains(AsciiLower(p.notes.value), term))
  }

  /** Whether `filterProducts` shows `p` for the selected category and the raw search
      input: an empty selection and an empty term each let everything through. */
  predicate IsShown(p: Item, categoryId: string, searchInput: string) {
    (categoryId == "" || InCategory(p, categoryId))
    && (AsciiLower(searchInput) == "" || MatchesTerm(p, AsciiLower(searchInput)))
  }

  /** The page's script-level state. */
  class Page {
    /** `allProducts`: the available products of the last load. */
    var allProducts: seq<Item>

    constructor ()
      ensures allProducts == []
    {
      allProducts := [];
    }

    /** `loadProducts` after the request succeeded: the response is narrowed to the
        products whose status is exactly 'Available', in response order. */
    method LoadProducts(response: seq<Item>)
      modifies this
      ensures allProducts == Seqs.Filter(response, IsAvailable)
      ensures forall p :: p in allProducts <==> p in response && IsAvailable(p)
    {
      allProducts := Seqs.Filter(response, IsAvailable);
      Seqs.FilterMembership(response, IsAvailable);
    }

    /** `filterProducts()` with the selected category and the typed search text: the
        list shown is the available list narrowed first by category and then by the
        lowercased term, each filter applied only when its input is not empty. */
    method FilterProducts(categoryId: string, searchInput: string) returns (shown: seq<Item>)
      ensures Seqs.IsSubsequence(shown, allProducts)
      ensures forall p :: p in shown <==> p in allProducts && IsShown(p, categoryId, searchInput)
      ensures categoryId == "" && searchInput == "" ==> shown == allProducts
    {
      var searchTerm := AsciiLower(searchInput);
      var inCategory := (p: Item) => InCategory(p, categoryId);
      var matches := (p: Item) => MatchesTerm(p, searchTerm);
      shown := allProducts;
      if categoryId != "" {
        shown := Seqs.Filter(shown, inCategory);
      }
      var byCategory := shown;
      assert Seqs.IsSubsequence(byCategory, allProducts) by {
        if categoryId != "" {
          Seqs.FilterIsSubsequence(allProducts, inCategory);
        } else {
          Seqs.SubsequenceRefl(allProducts);
        }
      }
      if searchTerm != "" {
        shown := Seqs.Filter(shown, matches);
        Seqs.FilterIsSubsequence(byCategory, matches);
        Seqs.SubsequenceTrans(shown, byCategory, allProducts);
        Seqs.FilterMembership(byCategory, matches);
      }
      if categoryId != "" {
        Seqs.FilterMembership(allProducts, inCategory);
      }
    }
  }

  /** The equipment index selects no `category_id`, so every product object lacks the
      key and a non-empty category selection leaves nothing to show. */
  lemma CategoryFilterOnIndexRows(all: seq<Item>, categoryId: string, searchInput: string, p: Item)
    requires forall i :: 0 <= i < |all| ==> all[i].categoryId == Undefined
    requires categoryId != ""
    requires p in all
    ensures !IsShown(p, categoryId, searchInput)
  {
  }
}
