/** A row of the stock table, the key that identifies it from one poll to the
    next, and the filter that keeps only the models the bot watches. */
module Listings {

  /** One vendor's offer of one Raspberry Pi model at one price, as read from
      one row of the stock table. */
  datatype Raspberry = Raspberry(
    sku: string,
    description: string,
    vendor: string,
    price: string,
    link: string,
    lastStock: string,
    available: bool)

  /** The identity of a listing across polls: `sku-vendor-price`. */
  function Key(r: Raspberry): string {
    r.sku + "-" + r.vendor + "-" + r.price
  }

  /** The key spells out the SKU, a dash, the vendor, a dash and the price. */
  lemma KeyLayout(r: Raspberry)
    ensures var k := Key(r);
      && |k| == |r.sku| + |r.vendor| + |r.price| + 2
      && k[..|r.sku|] == r.sku && k[|r.sku|] == '-'
      && k[|r.sku| + 1..|r.sku| + 1 + |r.vendor|] == r.vendor && k[|r.sku| + 1 + |r.vendor|] == '-'
      && k[|k| - |r.price|..] == r.price
  {
  }

  /** Listings that agree on sku, vendor and price are the same tracked item,
      whatever their description, link, last-stock date or availability. */
  lemma SameOfferSameKey(a: Raspberry, b: Raspberry)
    requires a.sku == b.sku && a.vendor == b.vendor && a.price == b.price
    ensures Key(a) == Key(b)
  {
  }

  predicate NoDash(s: string) {
    '-' !in s
  }

  /** In `s + "-" + t` with a dash-free `s`, the first dash is at `|s|`. */
  lemma FirstDashAt(s: string, t: string)
    requires NoDash(s)
    ensures (s + "-" + t)[|s|] == '-'
    ensures forall i :: 0 <= i < |s| ==> (s + "-" + t)[i] != '-'
  {
    forall i | 0 <= i < |s| ensures (s + "-" + t)[i] != '-' {
      assert (s + "-" + t)[i] == s[i];
    }
  }

  /** A dash-free prefix is recovered from `prefix + "-" + rest`. */
  lemma {:induction false} SplitAtFirstDash(s1: string, t1: string, s2: string, t2: string)
    requires NoDash(s1) && NoDash(s2)
    requires s1 + "-" + t1 == s2 + "-" + t2
    ensures s1 == s2 && t1 == t2
  {
    var u := s1 + "-" + t1;
    FirstDashAt(s1, t1);
    FirstDashAt(s2, t2);
    assert |s1| == |s2|;
    assert s1 == u[..|s1|] == s2;
    assert t1 == u[|s1| + 1..] == t2;
  }

  /** When neither SKU nor vendor contains a dash, the key determines the
      offer: different (sku, vendor, price) triples get different keys. */
  lemma KeyDeterminesOffer(a: Raspberry, b: Raspberry)
    requires NoDash(a.sku) && NoDash(a.vendor) && NoDash(b.sku) && NoDash(b.vendor)
    requires Key(a) == Key(b)
    ensures a.sku == b.sku && a.vendor == b.vendor && a.price == b.price
  {
    assert Key(a) == a.sku + "-" + (a.vendor + "-" + a.price);
    assert Key(b) == b.sku + "-" + (b.vendor + "-" + b.price);
    SplitAtFirstDash(a.sku, a.vendor + "-" + a.price, b.sku, b.vendor + "-" + b.price);
    SplitAtFirstDash(a.vendor, a.price, b.vendor, b.price);
  }

  /** Without that condition two different offers can share a key: the
      separator also occurs inside SKUs such as `RPI4-MODBP-2GB`. */
  lemma KeysCanCollide()
    ensures var a := Raspberry("RPI4-MODBP", "", "2GB-Shop", "50", "", "", true);
            var b := Raspberry("RPI4-MODBP-2GB", "", "Shop", "50", "", "", false);
            a.sku != b.sku && Key(a) == Key(b)
  {
    var a := Raspberry("RPI4-MODBP", "", "2GB-Shop", "50", "", "", true);
    var b := Raspberry("RPI4-MODBP-2GB", "", "Shop", "50", "", "", false);
    assert Key(a) == "RPI4-MODBP-2GB-Shop-50" == Key(b);
  }

  /** The model list selects everything when its first entry is `*`. */
  predicate SelectsAll(models: seq<string>) {
    |models| > 0 && models[0] == "*"
  }

  /** The listings whose SKU equals one of `models` exactly, in list order. */
  function KeepModels(models: seq<string>, list: seq<Raspberry>): (r: seq<Raspberry>)
    ensures forall x :: x in r <==> x in list && x.sku in models
    ensures |r| <= |list|
  {
    if list == [] then []
    else (if list[0].sku in models then [list[0]] else []) + KeepModels(models, list[1..])
  }

  /** The interest filter applied to the parsed table: all rows when the
      model list starts with `*`, otherwise the rows whose SKU is listed. */
  function FilterBySku(models: seq<string>, list: seq<Raspberry>): (r: seq<Raspberry>)
    ensures SelectsAll(models) ==> r == list
    ensures !SelectsAll(models) ==> forall x :: x in r <==> x in list && x.sku in models
    ensures |r| <= |list|
  {
    if SelectsAll(models) then list else KeepModels(models, list)
  }

  /** The filter works row by row: filtering a concatenation concatenates
      the filtered parts, so the kept rows stay in their original order. */
  lemma {:induction false} FilterDistributes(models: seq<string>, a: seq<Raspberry>, b: seq<Raspberry>)
    ensures FilterBySku(models, a + b) == FilterBySku(models, a) + FilterBySku(models, b)
  {
    if !SelectsAll(models) {
      KeepModelsDistributes(models, a, b);
    }
  }

  lemma {:induction false} KeepModelsDistributes(models: seq<string>, a: seq<Raspberry>, b: seq<Raspberry>)
    ensures KeepModels(models, a + b) == KeepModels(models, a) + KeepModels(models, b)
  {
    if a == [] {
      assert a + b == b;
    } else {
      assert (a + b)[1..] == a[1..] + b;
      KeepModelsDistributes(models, a[1..], b);
    }
  }

  /** On a single row the filter keeps the row exactly when the list starts
      with `*` or names the row's SKU. */
  lemma FilterSingle(models: seq<string>, x: Raspberry)
    ensures FilterBySku(models, [x]) == if SelectsAll(models) || x.sku in models then [x] else []
  {
    assert [x][1..] == [];
  }
}
