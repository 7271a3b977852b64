/** The Products section of the MWS client (lib/products.js): how each
    operation shapes the `parameters` it hands to `mws.createRequest`, and
    which inputs it turns away before any request is made. `createRequest`
    is a sink here: an operation ends in the error object it passes to its
    callback or in the call it makes. */
module Products {
  import opened JsValues
  import opened KeyPatterns
  import Mws

  /** How an operation ends: the callback receives `{Error: message}`, or
      `mws.createRequest` is called with this action, endpoint type,
      parameters and `xml` flag (`undefined` where the operation passes none). */
  datatype Outcome =
    | Error(message: string)
    | Request(action: string, section: string, parameters: JsObject, xml: Value)

  const Section := "Products"

  /** A capped loop starts its counter at 1, raises it after every entry,
      matched or not, and stops once it exceeds 20: it looks at no more than
      twenty entries. */
  const ListCap := 20

  /** The entries `for…in` visits in a list parameter: the properties of an
      object, and none for `undefined`, booleans and numbers. A string's
      index keys are digits, which no key pattern accepts, so it is treated
      as having none as well. */
  function ListEntries(v: Value): JsObject
  {
    if v.Obj? then v.fields else []
  }

  /** The entries a loop looks at: the first twenty when it is capped. */
  function Examined(entries: JsObject, capped: bool): JsObject
  {
    if capped && |entries| > ListCap then entries[..ListCap] else entries
  }

  /** The entries whose key the pattern accepts, in their order. */
  function Matching(entries: JsObject, p: Pattern): (r: JsObject)
    ensures |r| <= |entries|
    ensures forall e :: e in r ==> e in entries && Test(p, e.0)
    ensures forall e :: e in entries && Test(p, e.0) ==> e in r
    decreases |entries|
  {
    if entries == [] then []
    else
      var last := entries[|entries| - 1];
      var init := entries[..|entries| - 1];
      assert entries == init + [last];
      Matching(init, p) + (if Test(p, last.0) then [last] else [])
  }

  /** What a list loop copies from the list parameter `list`. */
  function Selected(list: Value, p: Pattern, capped: bool): JsObject
  {
    Matching(Examined(ListEntries(list), capped), p)
  }

  /** Matching keeps the order of the entries: the matches of a
      concatenation are the matches of its first part, then those of the
      second. */
  lemma {:induction false} MatchingAppend(a: JsObject, b: JsObject, p: Pattern)
    ensures Matching(a + b, p) == Matching(a, p) + Matching(b, p)
    decreases |b|
  {
    if b == [] {
      assert a + b == a;
    } else {
      var init := b[..|b| - 1];
      var last := b[|b| - 1];
      var tail: JsObject := if Test(p, last.0) then [last] else [];
      MatchingAppend(a, init, p);
      assert (a + b)[..|a + b| - 1] == a + init;
      assert (a + b)[|a + b| - 1] == last;
      assert Matching(a + b, p) == Matching(a + init, p) + tail;
      assert Matching(b, p) == Matching(init, p) + tail;
    }
  }

  lemma {:induction false} MatchingDistinct(entries: JsObject, p: Pattern)
    requires DistinctKeys(entries)
    ensures DistinctKeys(Matching(entries, p))
    decreases |entries|
  {
    if entries != [] {
      var last := entries[|entries| - 1];
      var init := entries[..|entries| - 1];
      MatchingDistinct(init, p);
      var m := Matching(init, p);
      forall i | 0 <= i < |m| ensures m[i].0 != last.0 {
        assert m[i] in init;
        var x :| 0 <= x < |init| && init[x] == m[i];
        assert entries[x] == m[i];
      }
    }
  }

  /** The copied entries: keys the pattern accepts among the entries looked
      at, values unchanged, no more than twenty when the loop is capped. */
  lemma SelectedSpec(list: Value, p: Pattern, capped: bool)
    requires DistinctKeys(ListEntries(list))
    ensures var s := Selected(list, p, capped);
      DistinctKeys(s) &&
      (forall k :: Has(s, k) <==> Test(p, k) && Has(Examined(ListEntries(list), capped), k)) &&
      (forall k :: Has(s, k) ==> Get(s, k) == Get(ListEntries(list), k)) &&
      (capped ==> |s| <= ListCap) &&
      (!capped ==> forall k :: Has(s, k) <==> Test(p, k) && Has(ListEntries(list), k))
  {
    var entries := ListEntries(list);
    var ex := Examined(entries, capped);
    var s := Selected(list, p, capped);
    assert DistinctKeys(ex);
    MatchingDistinct(ex, p);
    forall k | Has(s, k) ensures Test(p, k) && Has(ex, k) && Get(s, k) == Get(entries, k) {
      var i :| 0 <= i < |s| && s[i].0 == k;
      assert s[i] in ex;
      var x :| 0 <= x < |ex| && ex[x] == s[i];
      assert entries[x] == ex[x];
      GetAt(s, i);
      GetAt(entries, x);
    }
    forall k | Test(p, k) && Has(ex, k) ensures Has(s, k) {
      var x :| 0 <= x < |ex| && ex[x].0 == k;
      assert ex[x] in s;
    }
  }

  /** The counter rises for every entry, matched or not: an entry after the
      twentieth is never copied, however few of the first twenty matched. */
  lemma CapCountsEveryEntry(list: Value, p: Pattern)
    requires DistinctKeys(ListEntries(list))
    ensures forall i :: ListCap <= i < |ListEntries(list)| ==> !Has(Selected(list, p, true), ListEntries(list)[i].0)
  {
    var entries := ListEntries(list);
    SelectedSpec(list, p, true);
    forall i | ListCap <= i < |entries| ensures !Has(Examined(entries, true), entries[i].0) {
    }
  }

  /** The copy loop of the list operations (the `for…in` over the list with
      its pattern test and, in the capped operations, the counter and
      `break`), applied to a `parameters` object none of whose keys the
      pattern accepts. */
  method CopyListEntries(parameters: JsObject, list: Value, p: Pattern, capped: bool) returns (out: JsObject)
    requires DistinctKeys(ListEntries(list))
    requires forall k :: Has(parameters, k) ==> !Test(p, k)
    ensures out == parameters + Selected(list, p, capped)
  {
    var entries := ListEntries(list);
    out := parameters;
    var counter := 1;
    var n := 0;
    while n < |entries|
      invariant n <= |entries|
      invariant counter == n + 1
      invariant capped ==> n < ListCap
      invariant out == parameters + Matching(entries[..n], p)
    {
      out := CopyEntry(parameters, entries, p, n, out);
      counter := counter + 1;
      n := n + 1;
      if capped && counter > ListCap {
        ExaminedPrefix(entries, n, capped);
        break;
      }
    }
    ExaminedPrefix(entries, n, capped);
  }

  /** One turn of the copy loop: `parameters[key] = list[key]` when the
      pattern accepts the key. */
  method CopyEntry(parameters: JsObject, entries: JsObject, p: Pattern, n: nat, out: JsObject) returns (next: JsObject)
    requires DistinctKeys(entries) && n < |entries|
    requires forall k :: Has(parameters, k) ==> !Test(p, k)
    requires out == parameters + Matching(entries[..n], p)
    ensures next == parameters + Matching(entries[..n + 1], p)
  {
    var key := entries[n].0;
    CopyStep(parameters, entries, p, n);
    next := out;
    if Test(p, key) {
      next := Put(out, key, Get(entries, key));
    }
  }

  /** Where the copy loop stops: at the end of the list, or after the
      twentieth entry in a capped operation. */
  lemma ExaminedPrefix(entries: JsObject, n: nat, capped: bool)
    requires n <= |entries|
    requires (n == |entries| && (capped ==> n <= ListCap)) || (capped && n == ListCap)
    ensures entries[..n] == Examined(entries, capped)
  {
  }

  /** One turn of the copy loop: an accepted entry is added with its value,
      and it is new. */
  lemma CopyStep(parameters: JsObject, entries: JsObject, p: Pattern, n: nat)
    requires DistinctKeys(entries) && n < |entries|
    requires forall k :: Has(parameters, k) ==> !Test(p, k)
    ensures var before := parameters + Matching(entries[..n], p);
      parameters + Matching(entries[..n + 1], p) ==
        if Test(p, entries[n].0) then Put(before, entries[n].0, Get(entries, entries[n].0)) else before
  {
    var e := entries[n];
    var before := parameters + Matching(entries[..n], p);
    MatchingStep(entries, p, n);
    if Test(p, e.0) {
      GetAt(entries, n);
      NextKeyIsNew(parameters, entries, p, n);
      assert Put(before, e.0, e.1) == before + [e];
      assert parameters + (Matching(entries[..n], p) + [e]) == before + [e];
    }
  }

  lemma MatchingStep(entries: JsObject, p: Pattern, n: nat)
    requires n < |entries|
    ensures Matching(entries[..n + 1], p) == Matching(entries[..n], p) + (if Test(p, entries[n].0) then [entries[n]] else [])
  {
    assert entries[..n + 1][..n] == entries[..n];
  }

  /** The entry the loop reaches is not yet among the parameters. */
  lemma NextKeyIsNew(parameters: JsObject, entries: JsObject, p: Pattern, n: nat)
    requires DistinctKeys(entries) && n < |entries| && Test(p, entries[n].0)
    requires forall k :: Has(parameters, k) ==> !Test(p, k)
    ensures !Has(parameters + Matching(entries[..n], p), entries[n].0)
  {
    var m := Matching(entries[..n], p);
    HasConcat(parameters, m);
  }

  // ---------------------------------------------------------------------
  // Optional keys

  /** `if (_.has(params, k)) parameters[k] = params[k];` */
  function ForwardIfPresent(parameters: JsObject, params: JsObject, k: string): (r: JsObject)
    ensures Has(r, k) <==> Has(parameters, k) || Has(params, k)
    ensures Has(params, k) ==> Get(r, k) == Get(params, k)
    ensures forall j :: j != k ==> (Has(r, j) <==> Has(parameters, j)) && Get(r, j) == Get(parameters, j)
    ensures !Has(parameters, k) ==> r == parameters + Supplied(params, k)
    ensures DistinctKeys(parameters) ==> DistinctKeys(r)
  {
    if Has(params, k) then Put(parameters, k, Get(params, k)) else parameters
  }

  /** Property `k` of `params` as an object of its own, or nothing. */
  function Supplied(params: JsObject, k: string): JsObject
  {
    if Has(params, k) then [(k, Get(params, k))] else []
  }

  /** The guard on ExcludeMe (lib/products.js:315, 370): the caller has an
      `ExcludeMe` property, and its misspelt `ExludeMe` is strictly equal to
      'True' or 'False'. */
  predicate ExcludeMeAccepted(params: JsObject)
  {
    Has(params, "ExcludeMe") && (Get(params, "ExludeMe") == Str("True") || Get(params, "ExludeMe") == Str("False"))
  }

  /** A caller that spells ExcludeMe correctly, and only so, never has it
      forwarded. */
  lemma ExcludeMeAloneIsDropped(params: JsObject)
    requires !Has(params, "ExludeMe")
    ensures !ExcludeMeAccepted(params)
  {
    GetMissing(params, "ExludeMe");
  }

  // ---------------------------------------------------------------------
  // The list operations

  /** The keys an operation sets before its loop: MarketplaceId, and IdType
      in GetMatchingProductForId. */
  predicate FixedBeforeLoop(fixed: JsObject)
  {
    DistinctKeys(fixed) && forall i :: 0 <= i < |fixed| ==> fixed[i].0 == "MarketplaceId" || fixed[i].0 == "IdType"
  }

  function Marketplace(config: Mws.Config): (r: JsObject)
    ensures FixedBeforeLoop(r)
  {
    [("MarketplaceId", config.marketplaceId)]
  }

  /** The parameters of a list operation, read declaratively: the keys set
      before the loop, the accepted entries among those looked at, then
      ItemCondition and ExcludeMe where the operation forwards them. */
  function ListParameters(fixed: JsObject, list: Value, p: Pattern, capped: bool, params: JsObject,
                          itemCondition: bool, excludeMe: bool): JsObject
  {
    fixed + Selected(list, p, capped) + ItemConditionPart(params, itemCondition) + ExcludeMePart(params, excludeMe)
  }

  function ItemConditionPart(params: JsObject, forwarded: bool): JsObject
  {
    if forwarded then Supplied(params, "ItemCondition") else []
  }

  function ExcludeMePart(params: JsObject, forwarded: bool): JsObject
  {
    if forwarded && ExcludeMeAccepted(params) then [("ExcludeMe", Get(params, "ExcludeMe"))] else []
  }

  /** The keys set before the loop followed by the copied entries. */
  lemma LoopResultSpec(fixed: JsObject, list: Value, p: Pattern, capped: bool)
    requires IsKeyPattern(p) && FixedBeforeLoop(fixed) && DistinctKeys(ListEntries(list))
    ensures var a := fixed + Selected(list, p, capped);
      DistinctKeys(a) &&
      (forall k :: Has(a, k) <==> Has(fixed, k) || (Test(p, k) && Has(Examined(ListEntries(list), capped), k))) &&
      (forall k :: Has(fixed, k) ==> Get(a, k) == Get(fixed, k)) &&
      (forall k :: Test(p, k) && Has(a, k) ==> Get(a, k) == Get(ListEntries(list), k)) &&
      !Has(a, "ItemCondition") && !Has(a, "ExcludeMe")
  {
    var s := Selected(list, p, capped);
    FixedNeverSelected(fixed, list, p, capped);
    SelectedSpec(list, p, capped);
    GetConcat(fixed, s);
    HasConcat(fixed, s);
    FixedKeysNeverMatch(p);
  }

  /** No key set before the loop is one the pattern accepts. */
  lemma FixedNeverSelected(fixed: JsObject, list: Value, p: Pattern, capped: bool)
    requires IsKeyPattern(p) && FixedBeforeLoop(fixed) && DistinctKeys(ListEntries(list))
    ensures forall k :: Has(fixed, k) ==> !Test(p, k) && !Has(Selected(list, p, capped), k)
  {
    FixedKeysNeverMatch(p);
    SelectedSpec(list, p, capped);
    assert forall k :: Has(fixed, k) ==> k == "MarketplaceId" || k == "IdType";
  }

  /** What the optional steps need of the loop's result. */
  lemma LoopResultBasics(fixed: JsObject, list: Value, p: Pattern, capped: bool)
    requires IsKeyPattern(p) && FixedBeforeLoop(fixed) && DistinctKeys(ListEntries(list))
    ensures var a := fixed + Selected(list, p, capped);
      DistinctKeys(a) && !Has(a, "ItemCondition") && !Has(a, "ExcludeMe")
  {
    LoopResultSpec(fixed, list, p, capped);
  }

  /** Appending a property that is not there yet. */
  lemma AppendNew(a: JsObject, extra: JsObject, k: string)
    requires DistinctKeys(a) && !Has(a, k) && (extra == [] || (|extra| == 1 && extra[0].0 == k))
    ensures DistinctKeys(a + extra)
    ensures forall j :: j != k ==> (Has(a + extra, j) <==> Has(a, j)) && Get(a + extra, j) == Get(a, j)
    ensures (Has(a + extra, k) <==> extra != []) && Get(a + extra, k) == if extra == [] then Undefined else extra[0].1
  {
    HasConcat(a, extra);
    GetConcat(a, extra);
    if extra == [] {
      assert a + extra == a;
      GetMissing(a, k);
    } else {
      GetAt(a + extra, |a|);
    }
  }

  /** What a list operation sends: its fixed keys first and unchanged; a key
      the pattern accepts exactly when an entry looked at has it, with that
      entry's value; ItemCondition and ExcludeMe exactly when forwarded,
      with the caller's value; and nothing else. The keys are distinct, as
      `createRequest` needs. */
  lemma ListParametersSpec(fixed: JsObject, list: Value, p: Pattern, capped: bool, params: JsObject,
                           itemCondition: bool, excludeMe: bool)
    requires IsKeyPattern(p) && FixedBeforeLoop(fixed) && DistinctKeys(ListEntries(list))
    ensures var r := ListParameters(fixed, list, p, capped, params, itemCondition, excludeMe);
      DistinctKeys(r) && |fixed| <= |r| && r[..|fixed|] == fixed &&
      (forall k :: Has(fixed, k) ==> Get(r, k) == Get(fixed, k)) &&
      (forall k :: Test(p, k) ==> (Has(r, k) <==> Has(Examined(ListEntries(list), capped), k))) &&
      (forall k :: Test(p, k) && Has(r, k) ==> Get(r, k) == Get(ListEntries(list), k)) &&
      (Has(r, "ItemCondition") <==> itemCondition && Has(params, "ItemCondition")) &&
      Get(r, "ItemCondition") == (if itemCondition then Get(params, "ItemCondition") else Undefined) &&
      (Has(r, "ExcludeMe") <==> excludeMe && ExcludeMeAccepted(params)) &&
      (Has(r, "ExcludeMe") ==> Get(r, "ExcludeMe") == Get(params, "ExcludeMe")) &&
      (forall k :: Has(r, k) ==> Has(fixed, k) || Test(p, k) || k == "ItemCondition" || k == "ExcludeMe")
  {
    FixedPartKept(fixed, list, p, capped, params, itemCondition, excludeMe);
    ListAndOptionalParts(fixed, list, p, capped, params, itemCondition, excludeMe);
  }

  lemma FixedPartKept(fixed: JsObject, list: Value, p: Pattern, capped: bool, params: JsObject,
                      itemCondition: bool, excludeMe: bool)
    requires IsKeyPattern(p) && FixedBeforeLoop(fixed) && DistinctKeys(ListEntries(list))
    ensures var r := ListParameters(fixed, list, p, capped, params, itemCondition, excludeMe);
      DistinctKeys(r) && |fixed| <= |r| && r[..|fixed|] == fixed &&
      (forall k :: Has(fixed, k) ==> Get(r, k) == Get(fixed, k))
  {
    LoopResultBasics(fixed, list, p, capped);
    var a := fixed + Selected(list, p, capped);
    OptionalPartsSpec(a, params, itemCondition, excludeMe);
    var r := a + ItemConditionPart(params, itemCondition) + ExcludeMePart(params, excludeMe);
    assert r[..|fixed|] == fixed by {
      assert r[..|a|] == a;
      assert a[..|fixed|] == fixed;
    }
    forall k | Has(fixed, k) ensures Get(r, k) == Get(fixed, k) {
      GetPrefix(r, |fixed|, k);
    }
  }

  lemma ListAndOptionalParts(fixed: JsObject, list: Value, p: Pattern, capped: bool, params: JsObject,
                             itemCondition: bool, excludeMe: bool)
    requires IsKeyPattern(p) && FixedBeforeLoop(fixed) && DistinctKeys(ListEntries(list))
    ensures var r := ListParameters(fixed, list, p, capped, params, itemCondition, excludeMe);
      (forall k :: Test(p, k) ==> (Has(r, k) <==> Has(Examined(ListEntries(list), capped), k))) &&
      (forall k :: Test(p, k) && Has(r, k) ==> Get(r, k) == Get(ListEntries(list), k)) &&
      (Has(r, "ItemCondition") <==> itemCondition && Has(params, "ItemCondition")) &&
      Get(r, "ItemCondition") == (if itemCondition then Get(params, "ItemCondition") else Undefined) &&
      (Has(r, "ExcludeMe") <==> excludeMe && ExcludeMeAccepted(params)) &&
      (Has(r, "ExcludeMe") ==> Get(r, "ExcludeMe") == Get(params, "ExcludeMe")) &&
      (forall k :: Has(r, k) ==> Has(fixed, k) || Test(p, k) || k == "ItemCondition" || k == "ExcludeMe")
  {
    FixedKeysNeverMatch(p);
    LoopResultSpec(fixed, list, p, capped);
    OptionalPartsSpec(fixed + Selected(list, p, capped), params, itemCondition, excludeMe);
  }

  /** The two optional steps after the loop add ItemCondition and ExcludeMe
      and change nothing else. */
  lemma OptionalPartsSpec(a: JsObject, params: JsObject, itemCondition: bool, excludeMe: bool)
    requires DistinctKeys(a) && !Has(a, "ItemCondition") && !Has(a, "ExcludeMe")
    ensures var r := a + ItemConditionPart(params, itemCondition) + ExcludeMePart(params, excludeMe);
      DistinctKeys(r) && |a| <= |r| && r[..|a|] == a &&
      (forall k :: k != "ItemCondition" && k != "ExcludeMe" ==> (Has(r, k) <==> Has(a, k)) && Get(r, k) == Get(a, k)) &&
      (Has(r, "ItemCondition") <==> itemCondition && Has(params, "ItemCondition")) &&
      Get(r, "ItemCondition") == (if itemCondition then Get(params, "ItemCondition") else Undefined) &&
      (Has(r, "ExcludeMe") <==> excludeMe && ExcludeMeAccepted(params)) &&
      (Has(r, "ExcludeMe") ==> Get(r, "ExcludeMe") == Get(params, "ExcludeMe"))
  {
    var ic := ItemConditionPart(params, itemCondition);
    var em := ExcludeMePart(params, excludeMe);
    if itemCondition && !Has(params, "ItemCondition") {
      GetMissing(params, "ItemCondition");
    }
    AppendNew(a, ic, "ItemCondition");
    AppendNew(a + ic, em, "ExcludeMe");
    assert (a + ic + em)[..|a|] == a;
  }

  /** GetMatchingProduct: every ASIN entry the `[1-5]` pattern accepts, with
      no cap on the number of entries looked at. */
  method GetMatchingProduct(config: Mws.Config, params: JsObject) returns (r: Outcome)
    requires DistinctKeys(ListEntries(Get(params, "ASINList")))
    ensures r == Request("GetMatchingProduct", Section,
      ListParameters(Marketplace(config), Get(params, "ASINList"), AsinUpToFive, false, params, false, false), Undefined)
  {
    FixedKeysNeverMatch(AsinUpToFive);
    var parameters := CopyListEntries(Marketplace(config), Get(params, "ASINList"), AsinUpToFive, false);
    r := Request("GetMatchingProduct", Section, parameters, Undefined);
  }

  /** The IdType values GetMatchingProductForId lets through. */
  const ProductIdTypes := ["ASIN", "GCID", "SellerSKU", "UPC", "EAN", "JAN", "ISBN"]

  /** `v` is strictly equal to one of the strings in `allowed`. */
  predicate OneOf(v: Value, allowed: seq<string>)
  {
    v.Str? && v.s in allowed
  }

  /** The chain of comparisons GetMatchingProductForId makes before it
      turns an IdType away. */
  predicate UnknownIdType(v: Value)
  {
    v != Str("ASIN") && v != Str("GCID") && v != Str("SellerSKU") && v != Str("UPC") &&
    v != Str("EAN") && v != Str("JAN") && v != Str("ISBN")
  }

  /** That chain is non-membership in the seven IdTypes. */
  lemma ProductIdTypeCheck(v: Value)
    ensures UnknownIdType(v) <==> !OneOf(v, ProductIdTypes)
  {
  }

  /** GetMatchingProductForId: an IdType outside the seven known ones is
      turned away; otherwise MarketplaceId, IdType and every IdList entry the
      pattern accepts, with no cap. */
  method GetMatchingProductForId(config: Mws.Config, params: JsObject) returns (r: Outcome)
    requires DistinctKeys(ListEntries(Get(params, "IdList")))
    ensures r.Error? <==> !OneOf(Get(params, "IdType"), ProductIdTypes)
    ensures r.Error? ==> r.message == "unknown IdType. Allowed are ASIN, GCID, SellerSKU, UPC, EAN, ISBN, JAN"
    ensures r.Request? ==> r == Request("GetMatchingProductForId", Section,
      ListParameters([("MarketplaceId", config.marketplaceId), ("IdType", Get(params, "IdType"))],
                     Get(params, "IdList"), IdUpToFive, false, params, false, false), Undefined)
  {
    var idType := Get(params, "IdType");
    ProductIdTypeCheck(idType);
    if UnknownIdType(idType) {
      return Error("unknown IdType. Allowed are ASIN, GCID, SellerSKU, UPC, EAN, ISBN, JAN");
    }
    var fixed := [("MarketplaceId", config.marketplaceId), ("IdType", idType)];
    FixedKeysNeverMatch(IdUpToFive);
    var parameters := CopyListEntries(fixed, Get(params, "IdList"), IdUpToFive, false);
    assert parameters + ItemConditionPart(params, false) + ExcludeMePart(params, false) == parameters;
    r := Request("GetMatchingProductForId", Section, parameters, Undefined);
  }

  /** GetCompetitivePricingForSKU: the SellerSKU entries the pattern accepts
      among the first twenty. */
  method GetCompetitivePricingForSKU(config: Mws.Config, params: JsObject) returns (r: Outcome)
    requires DistinctKeys(ListEntries(Get(params, "SellerSKUList")))
    ensures r == Request("GetCompetitivePricingForSKU", Section,
      ListParameters(Marketplace(config), Get(params, "SellerSKUList"), SellerSkus, true, params, false, false), Undefined)
  {
    FixedKeysNeverMatch(SellerSkus);
    var parameters := CopyListEntries(Marketplace(config), Get(params, "SellerSKUList"), SellerSkus, true);
    r := Request("GetCompetitivePricingForSKU", Section, parameters, Undefined);
  }

  /** GetCompetitivePricingForASIN: the ASIN entries the escaped-dot pattern
      accepts among the first twenty. */
  method GetCompetitivePricingForASIN(config: Mws.Config, params: JsObject) returns (r: Outcome)
    requires DistinctKeys(ListEntries(Get(params, "ASINList")))
    ensures r == Request("GetCompetitivePricingForASIN", Section,
      ListParameters(Marketplace(config), Get(params, "ASINList"), AsinsDotted, true, params, false, false), Undefined)
  {
    FixedKeysNeverMatch(AsinsDotted);
    var parameters := CopyListEntries(Marketplace(config), Get(params, "ASINList"), AsinsDotted, true);
    r := Request("GetCompetitivePricingForASIN", Section, parameters, Undefined);
  }

  /** The ItemCondition and ExcludeMe steps after a loop. */
  lemma OptionalSteps(a: JsObject, params: JsObject, itemCondition: bool, excludeMe: bool)
    requires !Has(a, "ItemCondition") && !Has(a, "ExcludeMe")
    ensures var b := if itemCondition then ForwardIfPresent(a, params, "ItemCondition") else a;
      b == a + ItemConditionPart(params, itemCondition) && !Has(b, "ExcludeMe") &&
      (if excludeMe && ExcludeMeAccepted(params) then Put(b, "ExcludeMe", Get(params, "ExcludeMe")) else b)
        == b + ExcludeMePart(params, excludeMe)
  {
    var b := if itemCondition then ForwardIfPresent(a, params, "ItemCondition") else a;
    assert a + [] == a;
    HasConcat(a, ItemConditionPart(params, itemCondition));
    assert b + [] == b;
  }

  /** GetLowestOfferListingsForSKU: the SellerSKU entries the pattern accepts
      among the first twenty, then ItemCondition and ExcludeMe. */
  method GetLowestOfferListingsForSKU(config: Mws.Config, params: JsObject) returns (r: Outcome)
    requires DistinctKeys(ListEntries(Get(params, "SellerSKUList")))
    ensures r == Request("GetLowestOfferListingsForSKU", Section,
      ListParameters(Marketplace(config), Get(params, "SellerSKUList"), SellerSkus, true, params, true, true), Undefined)
  {
    FixedKeysNeverMatch(SellerSkus);
    var parameters := CopyListEntries(Marketplace(config), Get(params, "SellerSKUList"), SellerSkus, true);
    LoopResultSpec(Marketplace(config), Get(params, "SellerSKUList"), SellerSkus, true);
    OptionalSteps(parameters, params, true, true);
    parameters := ForwardIfPresent(parameters, params, "ItemCondition");
    if Has(params, "ExcludeMe") && (Get(params, "ExludeMe") == Str("True") || Get(params, "ExludeMe") == Str("False")) {
      parameters := Put(parameters, "ExcludeMe", Get(params, "ExcludeMe"));
    }
    r := Request("GetLowestOfferListingsForSKU", Section, parameters, Undefined);
  }

  /** GetLowestOfferListingsForASIN: the ASIN entries the pattern accepts
      among the first twenty, then ItemCondition and ExcludeMe. */
  method GetLowestOfferListingsForASIN(config: Mws.Config, params: JsObject) returns (r: Outcome)
    requires DistinctKeys(ListEntries(Get(params, "ASINList")))
    ensures r == Request("GetLowestOfferListingsForASIN", Section,
      ListParameters(Marketplace(config), Get(params, "ASINList"), Asins, true, params, true, true), Undefined)
  {
    FixedKeysNeverMatch(Asins);
    var parameters := CopyListEntries(Marketplace(config), Get(params, "ASINList"), Asins, true);
    LoopResultSpec(Marketplace(config), Get(params, "ASINList"), Asins, true);
    OptionalSteps(parameters, params, true, true);
    parameters := ForwardIfPresent(parameters, params, "ItemCondition");
    if Has(params, "ExcludeMe") && (Get(params, "ExludeMe") == Str("True") || Get(params, "ExludeMe") == Str("False")) {
      parameters := Put(parameters, "ExcludeMe", Get(params, "ExcludeMe"));
    }
    r := Request("GetLowestOfferListingsForASIN", Section, parameters, Undefined);
  }

  /** GetMyPriceForSKU: the SellerSKU entries the pattern accepts among the
      first twenty, then ItemCondition. */
  method GetMyPriceForSKU(config: Mws.Config, params: JsObject) returns (r: Outcome)
    requires DistinctKeys(ListEntries(Get(params, "SellerSKUList")))
    ensures r == Request("GetMyPriceForSKU", Section,
      ListParameters(Marketplace(config), Get(params, "SellerSKUList"), SellerSkus, true, params, true, false), Undefined)
  {
    FixedKeysNeverMatch(SellerSkus);
    var parameters := CopyListEntries(Marketplace(config), Get(params, "SellerSKUList"), SellerSkus, true);
    LoopResultSpec(Marketplace(config), Get(params, "SellerSKUList"), SellerSkus, true);
    OptionalSteps(parameters, params, true, false);
    parameters := ForwardIfPresent(parameters, params, "ItemCondition");
    r := Request("GetMyPriceForSKU", Section, parameters, Undefined);
  }

  /** GetMyPriceForASIN: the ASIN entries the pattern accepts among the first
      twenty, then ItemCondition. */
  method GetMyPriceForASIN(config: Mws.Config, params: JsObject) returns (r: Outcome)
    requires DistinctKeys(ListEntries(Get(params, "ASINList")))
    ensures r == Request("GetMyPriceForASIN", Section,
      ListParameters(Marketplace(config), Get(params, "ASINList"), Asins, true, params, true, false), Undefined)
  {
    FixedKeysNeverMatch(Asins);
    var parameters := CopyListEntries(Marketplace(config), Get(params, "ASINList"), Asins, true);
    LoopResultSpec(Marketplace(config), Get(params, "ASINList"), Asins, true);
    OptionalSteps(parameters, params, true, false);
    parameters := ForwardIfPresent(parameters, params, "ItemCondition");
    r := Request("GetMyPriceForASIN", Section, parameters, Undefined);
  }

  // ---------------------------------------------------------------------
  // The operations without a loop

  /** GetServiceStatus: no parameters of its own. */
  function GetServiceStatus(): (r: Outcome)
    ensures r.Request? && r.action == "GetServiceStatus" && r.section == Section
    ensures r.parameters == [] && r.xml == Undefined
  {
    Request("GetServiceStatus", Section, [], Undefined)
  }

  /** ListMatchingProducts: MarketplaceId and Query, then QueryContextId
      exactly when the caller has one. */
  function ListMatchingProducts(config: Mws.Config, params: JsObject): (r: Outcome)
    ensures r.Request? && r.action == "ListMatchingProducts" && r.section == Section && DistinctKeys(r.parameters)
    ensures |r.parameters| == if Has(params, "QueryContextId") then 3 else 2
    ensures Keys(r.parameters)[..2] == ["MarketplaceId", "Query"]
    ensures Get(r.parameters, "MarketplaceId") == config.marketplaceId && Get(r.parameters, "Query") == Get(params, "Query")
    ensures Has(r.parameters, "QueryContextId") <==> Has(params, "QueryContextId")
    ensures Get(r.parameters, "QueryContextId") == Get(params, "QueryContextId")
  {
    var parameters := [("MarketplaceId", config.marketplaceId), ("Query", Get(params, "Query"))];
    assert Get(parameters, "Query") == Get(params, "Query") by { GetAt(parameters, 1); }
    Request("ListMatchingProducts", Section, ForwardIfPresent(parameters, params, "QueryContextId"), Undefined)
  }

  /** GetProductCategoriesForASIN: MarketplaceId and the caller's ASIN. */
  function GetProductCategoriesForASIN(config: Mws.Config, params: JsObject): (r: Outcome)
    ensures r.Request? && r.action == "GetProductCategoriesForASIN" && r.section == Section && r.xml == Undefined
    ensures DistinctKeys(r.parameters) && Keys(r.parameters) == ["MarketplaceId", "ASIN"]
    ensures Get(r.parameters, "MarketplaceId") == config.marketplaceId && Get(r.parameters, "ASIN") == Get(params, "ASIN")
  {
    assert Get([("MarketplaceId", config.marketplaceId), ("ASIN", Get(params, "ASIN"))], "ASIN") == Get(params, "ASIN") by {
      GetAt([("MarketplaceId", config.marketplaceId), ("ASIN", Get(params, "ASIN"))], 1);
    }
    Request("GetProductCategoriesForASIN", Section,
            [("MarketplaceId", config.marketplaceId), ("ASIN", Get(params, "ASIN"))], Undefined)
  }

  /** The two GetLowestPricedOffers operations: MarketplaceId, the
      identifier under `idKey`, then ItemCondition exactly when the caller
      has one. */
  function LowestPricedOffers(action: string, idKey: string, config: Mws.Config, params: JsObject): (r: Outcome)
    requires idKey == "SellerSKU" || idKey == "ASIN"
    ensures r.Request? && r.action == action && r.section == Section && DistinctKeys(r.parameters)
    ensures |r.parameters| == if Has(params, "ItemCondition") then 3 else 2
    ensures Keys(r.parameters)[..2] == ["MarketplaceId", idKey]
    ensures Get(r.parameters, "MarketplaceId") == config.marketplaceId && Get(r.parameters, idKey) == Get(params, idKey)
    ensures Has(r.parameters, "ItemCondition") <==> Has(params, "ItemCondition")
    ensures Get(r.parameters, "ItemCondition") == Get(params, "ItemCondition")
  {
    var parameters := [("MarketplaceId", config.marketplaceId), (idKey, Get(params, idKey))];
    assert Get(parameters, idKey) == Get(params, idKey) by { GetAt(parameters, 1); }
    Request(action, Section, ForwardIfPresent(parameters, params, "ItemCondition"), Undefined)
  }

  function GetLowestPricedOffersForSKU(config: Mws.Config, params: JsObject): Outcome
  {
    LowestPricedOffers("GetLowestPricedOffersForSKU", "SellerSKU", config, params)
  }

  function GetLowestPricedOffersForASIN(config: Mws.Config, params: JsObject): Outcome
  {
    LowestPricedOffers("GetLowestPricedOffersForASIN", "ASIN", config, params)
  }

  /** Every GetMyFeesEstimate key names a field of the first (and only)
      entry of FeesEstimateRequestList. */
  function FeeKey(field: string): string
  {
    FeePrefix + field
  }

  const FeePrefix := "FeesEstimateRequestList.FeesEstimateRequest.1."

  /** The fields GetMyFeesEstimate fills in, in the order it writes them. */
  const FeeFields := [
    "MarketplaceId", "IdType", "IdValue", "IsAmazonFulfilled", "Identifier",
    "PriceToEstimateFees.ListingPrice.Amount", "PriceToEstimateFees.ListingPrice.CurrencyCode",
    "PriceToEstimateFees.Shipping.Amount", "PriceToEstimateFees.Shipping.CurrencyCode",
    "PriceToEstimateFees.Points.PointsNumber", "PriceToEstimateFees.Points.PointsMonetaryValue.Amount",
    "PriceToEstimateFees.Points.PointsMonetaryValue.CurrencyCode"]

  /** The twelve parameters of GetMyFeesEstimate. The identifier value is
      always the caller's `ASIN`, whichever IdType was given. */
  function FeesEstimateParameters(config: Mws.Config, params: JsObject): JsObject
  {
    [(FeeKey("MarketplaceId"), config.marketplaceId),
     (FeeKey("IdType"), Get(params, "IdType")),
     (FeeKey("IdValue"), Get(params, "ASIN")),
     (FeeKey("IsAmazonFulfilled"), Get(params, "IsAmazonFulfilled")),
     (FeeKey("Identifier"), Str("ABCDE")),
     (FeeKey("PriceToEstimateFees.ListingPrice.Amount"), Get(params, "price")),
     (FeeKey("PriceToEstimateFees.ListingPrice.CurrencyCode"), Str("JPY")),
     (FeeKey("PriceToEstimateFees.Shipping.Amount"), Get(params, "shipping")),
     (FeeKey("PriceToEstimateFees.Shipping.CurrencyCode"), Str("JPY")),
     (FeeKey("PriceToEstimateFees.Points.PointsNumber"), Num(0)),
     (FeeKey("PriceToEstimateFees.Points.PointsMonetaryValue.Amount"), Num(0)),
     (FeeKey("PriceToEstimateFees.Points.PointsMonetaryValue.CurrencyCode"), Str("JPY"))]
  }

  /** The IdType values GetMyFeesEstimate lets through. */
  const FeeIdTypes := ["ASIN", "SellerSKU"]

  /** GetMyFeesEstimate: an IdType other than ASIN or SellerSKU is turned
      away; otherwise exactly the twelve fee fields are sent. */
  function GetMyFeesEstimate(config: Mws.Config, params: JsObject): (r: Outcome)
    ensures r.Error? <==> !OneOf(Get(params, "IdType"), FeeIdTypes)
    ensures r.Error? ==> r.message == "unknown IdType. Allowed are ASIN, SellerSKU"
    ensures r.Request? ==> (r.action == "GetMyFeesEstimate" && r.section == Section && r.xml == Undefined &&
      Keys(r.parameters) == seq(|FeeFields|, i requires 0 <= i < |FeeFields| => FeeKey(FeeFields[i])))
    ensures r.Request? ==> r.parameters == FeesEstimateParameters(config, params)
  {
    if Get(params, "IdType") != Str("ASIN") && Get(params, "IdType") != Str("SellerSKU") then
      Error("unknown IdType. Allowed are ASIN, SellerSKU")
    else
      Request("GetMyFeesEstimate", Section, FeesEstimateParameters(config, params), Undefined)
  }

  lemma FeeFieldsDistinct()
    ensures forall i, j :: 0 <= i < j < |FeeFields| ==> FeeFields[i] != FeeFields[j]
  {
  }

  /** The twelve keys are distinct, so the request has exactly twelve
      parameters, with the values the source writes. */
  lemma FeesEstimateSpec(config: Mws.Config, params: JsObject)
    ensures var o := FeesEstimateParameters(config, params);
      |o| == 12 && DistinctKeys(o) &&
      Get(o, FeeKey("MarketplaceId")) == config.marketplaceId &&
      Get(o, FeeKey("IdType")) == Get(params, "IdType") &&
      Get(o, FeeKey("IdValue")) == Get(params, "ASIN") &&
      Get(o, FeeKey("IsAmazonFulfilled")) == Get(params, "IsAmazonFulfilled") &&
      Get(o, FeeKey("Identifier")) == Str("ABCDE") &&
      Get(o, FeeKey("PriceToEstimateFees.ListingPrice.Amount")) == Get(params, "price") &&
      Get(o, FeeKey("PriceToEstimateFees.Shipping.Amount")) == Get(params, "shipping") &&
      Get(o, FeeKey("PriceToEstimateFees.ListingPrice.CurrencyCode")) == Str("JPY") &&
      Get(o, FeeKey("PriceToEstimateFees.Shipping.CurrencyCode")) == Str("JPY") &&
      Get(o, FeeKey("PriceToEstimateFees.Points.PointsMonetaryValue.CurrencyCode")) == Str("JPY") &&
      Get(o, FeeKey("PriceToEstimateFees.Points.PointsNumber")) == Num(0) &&
      Get(o, FeeKey("PriceToEstimateFees.Points.PointsMonetaryValue.Amount")) == Num(0)
  {
    FeeKeysDistinct(config, params);
    FeeValueAt(config, params, 0);
    FeeValueAt(config, params, 1);
    FeeValueAt(config, params, 2);
    FeeValueAt(config, params, 3);
    FeeValueAt(config, params, 4);
    FeeValueAt(config, params, 5);
    FeeValueAt(config, params, 6);
    FeeValueAt(config, params, 7);
    FeeValueAt(config, params, 8);
    FeeValueAt(config, params, 9);
    FeeValueAt(config, params, 10);
    FeeValueAt(config, params, 11);
  }

  lemma FeeKeysDistinct(config: Mws.Config, params: JsObject)
    ensures var o := FeesEstimateParameters(config, params);
      |o| == 12 && DistinctKeys(o) && forall i :: 0 <= i < 12 ==> o[i].0 == FeeKey(FeeFields[i])
  {
    var o := FeesEstimateParameters(config, params);
    FeeFieldsDistinct();
    forall i | 0 <= i < 12 ensures o[i].0 == FeeKey(FeeFields[i]) {
    }
    forall i, j | 0 <= i < j < 12 ensures o[i].0 != o[j].0 {
      FeeKeyInjective(FeeFields[i], FeeFields[j]);
    }
  }

  lemma FeeValueAt(config: Mws.Config, params: JsObject, i: nat)
    requires i < 12
    ensures var o := FeesEstimateParameters(config, params);
      Get(o, FeeKey(FeeFields[i])) == o[i].1
  {
    var o := FeesEstimateParameters(config, params);
    FeeKeysDistinct(config, params);
    GetAt(o, i);
  }

  lemma FeeKeyInjective(a: string, b: string)
    requires a != b
    ensures FeeKey(a) != FeeKey(b)
  {
    assert FeeKey(a)[|FeePrefix|..] == a;
    assert FeeKey(b)[|FeePrefix|..] == b;
  }

  // ---------------------------------------------------------------------
  // GetProductCategoriesForSKU

  /** An argument that may be a function; a function is known by its name. */
  datatype Argument = Function(name: string) | Data(value: Value)

  /** What GetProductCategoriesForSKU does: warn and send nothing, or hand
      an outcome to a callback. */
  datatype Delivery = Warned(warning: string) | Delivered(callback: Argument, outcome: Outcome)

  /** The outcome once the callback is settled: the caller's MarketplaceId
      and SellerSKU, both required, and the `xml` flag passed along. */
  function CategoriesForSku(params: JsObject, xml: Value): (r: Outcome)
    ensures r.Error? <==> !Has(params, "MarketplaceId") || !Has(params, "SellerSKU")
    ensures r.Request? ==>
      r.xml == xml && DistinctKeys(r.parameters) && Keys(r.parameters) == ["MarketplaceId", "SellerSKU"] &&
      Get(r.parameters, "MarketplaceId") == Get(params, "MarketplaceId") &&
      Get(r.parameters, "SellerSKU") == Get(params, "SellerSKU")
  {
    if !Has(params, "MarketplaceId") || !Has(params, "SellerSKU") then
      Error("You need to pass parameter MarketplaceId and SellerSKU")
    else
      var parameters := [("MarketplaceId", Get(params, "MarketplaceId")), ("SellerSKU", Get(params, "SellerSKU"))];
      assert Get(parameters, "SellerSKU") == Get(params, "SellerSKU") by { GetAt(parameters, 1); }
      Request("GetProductCategoriesForSKU", Section, parameters, xml)
  }

  /** GetProductCategoriesForSKU(config, params, xml, cb). A function in the
      `xml` place becomes the callback and the flag becomes false; an
      undefined `xml` drops the call with a warning and no callback;
      anything else is the flag and `cb` the callback. The `config`
      argument is only passed on to `createRequest`, which does not read it. */
  function GetProductCategoriesForSKU(params: JsObject, xml: Argument, cb: Argument): (r: Delivery)
    ensures r.Warned? <==> xml == Data(Undefined)
    ensures r.Warned? ==> r.warning == "No callback provided. Throwing the request"
    ensures r.Delivered? ==> r.callback == if xml.Function? then xml else cb
    ensures r.Delivered? ==> (r.outcome.Error? <==> !Has(params, "MarketplaceId") || !Has(params, "SellerSKU"))
    ensures r.Delivered? && r.outcome.Error? ==> r.outcome.message == "You need to pass parameter MarketplaceId and SellerSKU"
    ensures r.Delivered? && r.outcome.Request? ==>
      r.outcome.xml == (if xml.Function? then Bool(false) else xml.value) &&
      DistinctKeys(r.outcome.parameters) && Keys(r.outcome.parameters) == ["MarketplaceId", "SellerSKU"] &&
      Get(r.outcome.parameters, "MarketplaceId") == Get(params, "MarketplaceId") &&
      Get(r.outcome.parameters, "SellerSKU") == Get(params, "SellerSKU")
  {
    if xml.Function? then
      Delivered(xml, CategoriesForSku(params, Bool(false)))
    else if xml.value == Undefined then
      Warned("No callback provided. Throwing the request")
    else
      Delivered(cb, CategoriesForSku(params, xml.value))
  }

  // ---------------------------------------------------------------------
  // What createRequest makes of these parameters

  /** A key `createRequest` signs as it is: no capital D, so no Date key,
      and not `Timestamp`. */
  predicate PlainKey(k: string)
  {
    k != "Timestamp" && 'D' !in k
  }

  /** Every parameter of a request has a plain key. */
  predicate PlainRequest(r: Outcome)
  {
    r.Request? ==> forall i :: 0 <= i < |r.parameters| ==> PlainKey(r.parameters[i].0)
  }

  /** A request whose keys are all plain is built by `createRequest` exactly
      when the secret key is a string: the Products section is known and no
      parameter signed has to be a string. */
  lemma PlainRequestIsBuilt(r: Outcome, now: string, config: Mws.Config,
                            hmac: (Value, string) -> string, stringify: JsObject -> string)
    requires r.Request? && r.section == Section && DistinctKeys(r.parameters) && PlainRequest(r)
    ensures Mws.RequestFor(now, config, Str(r.action), r.section, r.parameters, hmac, stringify).Success?
      <==> config.secretKey.Str?
  {
    Mws.RequestSucceeds(now, config, Str(r.action), r.section, r.parameters, hmac, stringify);
    forall k | Has(r.parameters, k) ensures k != "Timestamp" && !Mws.IsDateKey(k) {
      var i :| 0 <= i < |r.parameters| && r.parameters[i].0 == k;
      Mws.NoCapitalD(k);
    }
  }

  /** The operations whose keys are fixed words (GetMyFeesEstimate aside)
      send only plain keys, so `createRequest` builds their request
      whatever the caller's values once the secret key is a string. */
  lemma FixedOperationsArePlain(config: Mws.Config, params: JsObject, xml: Argument, cb: Argument)
    ensures PlainRequest(GetServiceStatus())
    ensures PlainRequest(ListMatchingProducts(config, params))
    ensures PlainRequest(GetProductCategoriesForASIN(config, params))
    ensures PlainRequest(GetLowestPricedOffersForSKU(config, params))
    ensures PlainRequest(GetLowestPricedOffersForASIN(config, params))
    ensures var d := GetProductCategoriesForSKU(params, xml, cb); d.Delivered? ==> PlainRequest(d.outcome)
  {
    ListMatchingProductsIsPlain(config, params);
    LowestPricedOffersArePlain(config, params);
    CategoriesForSkuArePlain(params, xml, cb);
    CategoriesForAsinArePlain(config, params);
  }

  lemma CategoriesForAsinArePlain(config: Mws.Config, params: JsObject)
    ensures PlainRequest(GetProductCategoriesForASIN(config, params))
  {
  }

  lemma ListMatchingProductsIsPlain(config: Mws.Config, params: JsObject)
    ensures PlainRequest(ListMatchingProducts(config, params))
  {
    ForwardedKeysPlain([("MarketplaceId", config.marketplaceId), ("Query", Get(params, "Query"))], params, "QueryContextId");
  }

  lemma LowestPricedOffersArePlain(config: Mws.Config, params: JsObject)
    ensures PlainRequest(GetLowestPricedOffersForSKU(config, params))
    ensures PlainRequest(GetLowestPricedOffersForASIN(config, params))
  {
    ForwardedKeysPlain([("MarketplaceId", config.marketplaceId), ("SellerSKU", Get(params, "SellerSKU"))], params, "ItemCondition");
    ForwardedKeysPlain([("MarketplaceId", config.marketplaceId), ("ASIN", Get(params, "ASIN"))], params, "ItemCondition");
  }

  lemma CategoriesForSkuArePlain(params: JsObject, xml: Argument, cb: Argument)
    ensures var d := GetProductCategoriesForSKU(params, xml, cb); d.Delivered? ==> PlainRequest(d.outcome)
  {
    CategoriesForSkuPlain(params, Bool(false));
    if xml.Data? {
      CategoriesForSkuPlain(params, xml.value);
    }
  }

  lemma CategoriesForSkuPlain(params: JsObject, xml: Value)
    ensures PlainRequest(CategoriesForSku(params, xml))
  {
    var r := CategoriesForSku(params, xml);
    if r.Request? {
      assert r.parameters[0].0 == "MarketplaceId" && r.parameters[1].0 == "SellerSKU";
    }
  }

  /** Forwarding a plain key keeps every key plain. */
  lemma ForwardedKeysPlain(parameters: JsObject, params: JsObject, k: string)
    requires forall i :: 0 <= i < |parameters| ==> PlainKey(parameters[i].0)
    requires PlainKey(k)
    ensures forall i :: 0 <= i < |ForwardIfPresent(parameters, params, k)| ==> PlainKey(ForwardIfPresent(parameters, params, k)[i].0)
  {
  }

  /** A list operation's request is built exactly when the secret key is a
      string and every copied entry whose key contains "Date" has a string
      value: signing rewrites the colons of such values and throws on
      anything else. */
  lemma ListRequestBuilt(now: string, config: Mws.Config, action: string, fixed: JsObject, list: Value,
                         p: Pattern, capped: bool, params: JsObject, itemCondition: bool, excludeMe: bool,
                         hmac: (Value, string) -> string, stringify: JsObject -> string)
    requires IsKeyPattern(p) && FixedBeforeLoop(fixed) && DistinctKeys(ListEntries(list))
    ensures Mws.RequestFor(now, config, Str(action), Section,
                           ListParameters(fixed, list, p, capped, params, itemCondition, excludeMe), hmac, stringify).Success?
      <==> config.secretKey.Str? &&
           forall k :: Has(Selected(list, p, capped), k) && Mws.IsDateKey(k) ==> Get(ListEntries(list), k).Str?
  {
    var o := ListParameters(fixed, list, p, capped, params, itemCondition, excludeMe);
    var s := Selected(list, p, capped);
    ListParametersSpec(fixed, list, p, capped, params, itemCondition, excludeMe);
    SelectedSpec(list, p, capped);
    OnlyListKeysAreDates(fixed, list, p, capped, params, itemCondition, excludeMe);
    Mws.RequestSucceeds(now, config, Str(action), Section, o, hmac, stringify);
    assert forall k :: Mws.IsDateKey(k) ==> (Has(o, k) <==> Has(s, k));
  }

  /** In a list operation's parameters only copied entries can be Date keys,
      and there is no Timestamp. */
  lemma OnlyListKeysAreDates(fixed: JsObject, list: Value, p: Pattern, capped: bool, params: JsObject,
                             itemCondition: bool, excludeMe: bool)
    requires IsKeyPattern(p) && FixedBeforeLoop(fixed) && DistinctKeys(ListEntries(list))
    ensures var o := ListParameters(fixed, list, p, capped, params, itemCondition, excludeMe);
      !Has(o, "Timestamp") && forall k :: Has(o, k) && Mws.IsDateKey(k) ==> Test(p, k)
  {
    ListParametersSpec(fixed, list, p, capped, params, itemCondition, excludeMe);
    TimestampIsNoListKey(p);
    FixedKeysAreNoDateKeys();
    assert forall k :: Has(fixed, k) ==> k == "MarketplaceId" || k == "IdType";
  }

  lemma TimestampIsNoListKey(p: Pattern)
    requires IsKeyPattern(p)
    ensures !Test(p, "Timestamp")
  {
    NoListLetterNoMatch(p, "Timestamp");
  }

  lemma FixedKeysAreNoDateKeys()
    ensures !Mws.IsDateKey("MarketplaceId") && !Mws.IsDateKey("IdType")
    ensures !Mws.IsDateKey("ItemCondition") && !Mws.IsDateKey("ExcludeMe")
  {
    Mws.NoCapitalD("MarketplaceId");
    Mws.NoCapitalD("IdType");
    Mws.NoCapitalD("ItemCondition");
    Mws.NoCapitalD("ExcludeMe");
  }
}
