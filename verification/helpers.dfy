/** The product-list selection of `includes/helpers.php`: the villa's
    related products filtered by category, narrowed or widened by a list
    of specific ids, cut to a maximum, and verified against the catalogue.
    The villa lookup and the relations table are SQL and enter as inputs
    (a villa id of 0 meaning none was found, and the related ids). */
module Helpers {
  import opened Common
  import opened Decimal
  import opened Php
  import opened Store

  /** `has_term(category, 'product_cat', id)`, left uninterpreted. */
  type HasTerm = (string, ProductId) -> bool

  /** Some category of the filter is a term of the product. */
  predicate MatchesAny(hasTerm: HasTerm, categories: seq<string>, id: ProductId) {
    exists k :: 0 <= k < |categories| && hasTerm(categories[k], id)
  }

  /** The category test as a value, for `Filter`. */
  function InCategories(hasTerm: HasTerm, categories: seq<string>): ProductId -> bool {
    id => MatchesAny(hasTerm, categories, id)
  }

  /** What `aura_cps_get_related_equipment` returns, as a reference: no
      villa gives nothing; no category filter gives every related id;
      otherwise each related id with a matching category, in order, once
      per occurrence. */
  function RelatedIds(villaId: int, related: seq<ProductId>, categories: seq<string>, hasTerm: HasTerm): (r: seq<ProductId>)
    ensures villaId == 0 ==> r == []
    ensures forall x :: x in r <==> villaId != 0 && x in related && (|categories| == 0 || MatchesAny(hasTerm, categories, x))
    ensures |r| <= |related|
  {
    if villaId == 0 then []
    else if |categories| == 0 then related
    else Filter(related, InCategories(hasTerm, categories))
  }

  /** `aura_cps_get_related_equipment`: the nested loop over related ids
      and categories that stops at the first matching category computes
      the reference selection. */
  method GetRelatedEquipment(villaId: int, related: seq<ProductId>, categories: seq<string>, hasTerm: HasTerm)
    returns (ids: seq<ProductId>)
    ensures ids == RelatedIds(villaId, related, categories, hasTerm)
  {
    if villaId == 0 || |related| == 0 {
      return [];
    }
    if |categories| == 0 {
      return related;
    }
    ids := KeepMatching(related, categories, hasTerm);
  }

  /** The outer loop of `aura_cps_get_related_equipment`: each related id
      with a matching category is kept, in order. */
  method KeepMatching(related: seq<ProductId>, categories: seq<string>, hasTerm: HasTerm) returns (ids: seq<ProductId>)
    ensures ids == Filter(related, InCategories(hasTerm, categories))
  {
    var keep := InCategories(hasTerm, categories);
    ids := [];
    var i := 0;
    while i < |related|
      invariant 0 <= i <= |related|
      invariant ids == Filter(related[..i], keep)
    {
      var id := related[i];
      var matched := FirstMatch(hasTerm, categories, id);
      FilterSnoc(related[..i], id, keep);
      assert related[..i + 1] == related[..i] + [id];
      if matched {
        ids := ids + [id];
      }
      i := i + 1;
    }
    assert related[..|related|] == related;
  }

  /** The inner loop of `aura_cps_get_related_equipment`: try the
      categories in order and stop at the first one the product has. */
  method FirstMatch(hasTerm: HasTerm, categories: seq<string>, id: ProductId) returns (matched: bool)
    ensures matched <==> MatchesAny(hasTerm, categories, id)
  {
    matched := false;
    var k := 0;
    while k < |categories| && !matched
      invariant 0 <= k <= |categories|
      invariant matched ==> MatchesAny(hasTerm, categories, id)
      invariant !matched ==> forall m :: 0 <= m < k ==> !hasTerm(categories[m], id)
    {
      if hasTerm(categories[k], id) {
        matched := true;
      }
      k := k + 1;
    }
  }

  /** A setting as the text `explode` sees. */
  function SettingText(v: Raw): string {
    match v
    case Missing => ""
    case Str(s) => s
    case Num(n) => IntString(n)
  }

  /** `intval(trim(piece))` of every piece. */
  function ReadIds(pieces: seq<string>): (r: seq<ProductId>)
    ensures |r| == |pieces|
    ensures forall i :: 0 <= i < |pieces| ==> r[i] == StrToInt(Trim(pieces[i]))
  {
    seq(|pieces|, i requires 0 <= i < |pieces| => StrToInt(Trim(pieces[i])))
  }

  /** `array_filter` without a callback keeps the truthy ids. */
  predicate NonZero(x: ProductId) {
    x != 0
  }

  /** The specific-ids setting: split on ",", trim, `intval`, drop zeros. */
  function ParseSpecificIds(text: string): (ids: seq<ProductId>)
    ensures forall x :: x in ids <==> x != 0 && x in ReadIds(Explode(text, ','))
    ensures |ids| <= |Explode(text, ',')|
  {
    Filter(ReadIds(Explode(text, ',')), NonZero)
  }

  /** The decimal spelling of each id. */
  function Spell(ids: seq<ProductId>): (r: seq<string>)
    ensures |r| == |ids|
    ensures forall i :: 0 <= i < |ids| ==> r[i] == IntString(ids[i])
  {
    seq(|ids|, i requires 0 <= i < |ids| => IntString(ids[i]))
  }

  /** A spelled-out number holds no comma and nothing `trim` strips. */
  lemma NumberIsOnePiece(n: int)
    ensures ',' !in IntString(n)
    ensures !IsTrimmed(IntString(n)[0]) && !IsTrimmed(IntString(n)[|IntString(n)| - 1])
  {
    var s := IntString(n);
    if n < 0 {
      assert s[|s| - 1] == s[1..][|s| - 2];
    }
  }

  /** Non-zero 64-bit ids written as a comma-separated list parse back
      to the same ids, in the same order. */
  lemma {:induction false} SpecificIdsRoundTrip(ids: seq<ProductId>)
    requires |ids| >= 1
    requires forall i :: 0 <= i < |ids| ==> ids[i] != 0 && MinInt <= ids[i] <= MaxInt
    ensures ParseSpecificIds(Join(Spell(ids), ',')) == ids
  {
    var pieces := Spell(ids);
    forall i | 0 <= i < |pieces|
      ensures ',' !in pieces[i]
    {
      NumberIsOnePiece(ids[i]);
    }
    ExplodeJoin(pieces, ',');
    var read := ReadIds(pieces);
    forall i | 0 <= i < |ids|
      ensures read[i] == ids[i]
    {
      NumberIsOnePiece(ids[i]);
      TrimUntouched(pieces[i]);
      IntValOfIntString(ids[i]);
    }
    assert read == ids;
    FilterKeepsAll(ids, NonZero);
  }

  /** The widget settings the selection reads. */
  datatype ProductSettings = ProductSettings(
    category: seq<string>,  // product_category; empty means no filter
    productIds: Raw,        // product_ids, comma-separated
    filterLogic: Raw,       // filter_logic, "and" by default
    maxProducts: Raw)       // max_products

  /** The parsed specific ids, none when the setting is empty. */
  function SpecificIds(s: ProductSettings): seq<ProductId> {
    if Empty(s.productIds) then [] else ParseSpecificIds(SettingText(s.productIds))
  }

  /** The filter logic is AND when the setting is empty or "and". */
  predicate AndLogic(s: ProductSettings) {
    Empty(s.filterLogic) || s.filterLogic == Str("and")
  }

  /** Membership in the specific list, as a value for `Filter`. */
  function InList(specific: seq<ProductId>): ProductId -> bool {
    x => x in specific
  }

  /** Step 3: with AND the related ids that are also specific, in related
      order and as often as they occur there (`array_intersect` keeps the
      keys of its first argument); with OR the related ids then the
      specific ones, each id once at its first occurrence (`array_unique`
      of `array_merge`). */
  function Combine(related: seq<ProductId>, specific: seq<ProductId>, and: bool): (r: seq<ProductId>)
    ensures and ==> Subsequence(r, related)
    ensures and ==> forall x :: multiset(r)[x] == if x in specific then multiset(related)[x] else 0
    ensures !and ==> Distinct(r) && forall x :: x in r <==> x in related || x in specific
  {
    if and then
      FilterSubsequence(related, InList(specific));
      FilterCounts(related, InList(specific));
      Filter(related, InList(specific))
    else Dedup(related + specific, {})
  }

  /** With OR logic the related ids come first, each at its first
      occurrence, followed by the specific ids not already among them, in
      their own order; related ids without repetitions come first unchanged. */
  lemma OrKeepsRelatedFirst(related: seq<ProductId>, specific: seq<ProductId>)
    ensures Combine(related, specific, false) == Dedup(related, {}) + Dedup(specific, Elements(related))
    ensures Distinct(related) ==> Combine(related, specific, false) == related + Dedup(specific, Elements(related))
  {
    DedupConcat(related, specific, {});
    assert {} + Elements(related) == Elements(related);
    if Distinct(related) {
      DedupOfDistinct(related, {});
    }
  }

  /** With AND logic, specific ids that cover every related id keep the
      related list whole. */
  lemma AndCoveringKeepsAll(related: seq<ProductId>, specific: seq<ProductId>)
    requires forall i :: 0 <= i < |related| ==> related[i] in specific
    ensures Combine(related, specific, true) == related
  {
    FilterKeepsAll(related, InList(specific));
  }

  /** A positive maximum applies. */
  predicate HasLimit(max: Raw) {
    !Empty(max) && IntVal(max) > 0
  }

  /** Step 4: `array_slice($ids, 0, max)` under a positive maximum: the
      longest prefix of at most `max` ids. */
  function Truncate(ids: seq<ProductId>, max: Raw): (r: seq<ProductId>)
    ensures !HasLimit(max) ==> r == ids
    ensures HasLimit(max) ==> |r| == (if IntVal(max) < |ids| then IntVal(max) else |ids|)
    ensures r == ids[..|r|]
  {
    if HasLimit(max) && IntVal(max) < |ids| then ids[..IntVal(max)] else ids
  }

  /** Steps 3 and 4 on a non-empty related list: the list before
      verification. A specific-ids setting that parses to nothing leaves
      the related list as it is. */
  function Selection(related: seq<ProductId>, s: ProductSettings): (r: seq<ProductId>)
    ensures forall x :: x in r ==> x in related || x in SpecificIds(s)
    ensures |SpecificIds(s)| > 0 && AndLogic(s) ==> forall x :: x in r ==> x in related && x in SpecificIds(s)
    ensures |SpecificIds(s)| == 0 ==> r == Truncate(related, s.maxProducts)
    ensures HasLimit(s.maxProducts) ==> |r| <= IntVal(s.maxProducts)
  {
    var specific := SpecificIds(s);
    var chosen := if |specific| == 0 then related else Combine(related, specific, AndLogic(s));
    var r := Truncate(chosen, s.maxProducts);
    assert forall x :: x in r ==> x in chosen;
    r
  }

  /** Step 5: the product exists, is simple and is published. */
  predicate Listable(catalog: Catalog, id: ProductId) {
    id in catalog && catalog[id].kind == Simple && catalog[id].status == Publish
  }

  function ListableIn(catalog: Catalog): ProductId -> bool {
    id => Listable(catalog, id)
  }

  /** `aura_cps_get_products` up to its final re-ordering: no villa or no
      related ids give nothing; otherwise the selection, then the
      verification loop keeps the listable ids in order. */
  method GetProducts(villaId: int, related: seq<ProductId>, s: ProductSettings, catalog: Catalog, hasTerm: HasTerm)
    returns (ids: seq<ProductId>)
    ensures villaId == 0 ==> ids == []
    ensures forall x :: x in ids ==> Listable(catalog, x)
    ensures var rel := RelatedIds(villaId, related, s.category, hasTerm);
      ids == if |rel| == 0 then [] else Filter(Selection(rel, s), ListableIn(catalog))
  {
    if villaId == 0 {
      return [];
    }
    var rel := GetRelatedEquipment(villaId, related, s.category, hasTerm);
    if |rel| == 0 {
      return [];
    }
    ids := KeepListable(Selection(rel, s), catalog);
  }

  /** The verification loop of `aura_cps_get_products`: each chosen id is
      loaded and kept only when it is a published simple product. */
  method KeepListable(chosen: seq<ProductId>, catalog: Catalog) returns (ids: seq<ProductId>)
    ensures ids == Filter(chosen, ListableIn(catalog))
  {
    var keep := ListableIn(catalog);
    ids := [];
    var i := 0;
    while i < |chosen|
      invariant 0 <= i <= |chosen|
      invariant ids == Filter(chosen[..i], keep)
    {
      var id := chosen[i];
      FilterSnoc(chosen[..i], id, keep);
      assert chosen[..i + 1] == chosen[..i] + [id];
      assert keep(id) == Listable(catalog, id);
      if Listable(catalog, id) {
        ids := ids + [id];
      }
      i := i + 1;
    }
    assert chosen[..|chosen|] == chosen;
  }

  /** `aura_cps_get_product`: the product when WooCommerce is active and
      the product exists and is simple; false (`None`) otherwise. */
  function GetProduct(catalog: Catalog, id: ProductId, wooActive: bool): (r: Option<Product>)
    ensures r.Some? <==> wooActive && id in catalog && catalog[id].kind == Simple
    ensures r.Some? ==> r.value == catalog[id]
  {
    if !wooActive || id !in catalog || catalog[id].kind != Simple then None else Some(catalog[id])
  }

  /** Every id the selection lists can be loaded by `aura_cps_get_product`
      and is published; the listing and the loader agree. */
  lemma ListedIdsLoad(catalog: Catalog, ids: seq<ProductId>, x: ProductId)
    requires x in Filter(ids, ListableIn(catalog))
    ensures GetProduct(catalog, x, true).Some?
    ensures GetProduct(catalog, x, true).value.status == Publish
  {
  }

  /** With no specific ids and no maximum, the products are the related
      ids that are listable, in the order the relations gave them. */
  lemma PlainSelection(related: seq<ProductId>, s: ProductSettings)
    requires Empty(s.productIds) && !HasLimit(s.maxProducts)
    ensures Selection(related, s) == related
  {
  }
}
