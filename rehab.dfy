/** RehabCalc: a rehab estimate made of a base (square footage times the
    rate of the chosen scope) plus a set of toggled line items, and a store of
    estimates keyed by trimmed address. */
module Rehab {
  import opened Results
  import opened JsText
  import opened JsNumber
  import opened JsArray

  /** A line item of the live form. HVAC is a flat `cost`; every other item is a
      `rate` in dollars per square foot. Either field may be absent. */
  datatype LineItem = LineItem(id: int, name: string, included: bool, rate: Option<real>, cost: Option<real>)

  /** The catalog every estimate starts from and is completed to on load. */
  const DefaultItems: seq<LineItem> := [
    LineItem(1, "Roof", false, Some(0.0), None),
    LineItem(2, "Siding", false, Some(0.0), None),
    LineItem(3, "HVAC", false, None, Some(0.0)),
    LineItem(4, "Rewiring", false, Some(0.0), None),
    LineItem(5, "Repiping", false, Some(0.0), None),
    LineItem(6, "Flooring", false, Some(0.0), None)
  ]

  const LightScope: string := "light"

  /** The dollars per square foot of a scope key: 10, 20 or 45 for the three
      options, 0 for any other key. */
  function RateByKey(k: string): (r: real)
    ensures r != 0.0 <==> k in {"light", "mid", "gut"}
    ensures k == "light" ==> r == 10.0
    ensures k == "mid" ==> r == 20.0
    ensures k == "gut" ==> r == 45.0
  {
    if k == "light" then 10.0 else if k == "mid" then 20.0 else if k == "gut" then 45.0 else 0.0
  }

  /** The square-footage part of the estimate. */
  function BaseRehab(sf: real, scope: string): real {
    sf * RateByKey(scope)
  }

  /** What an included item adds: HVAC its cost, any other item rate times sf;
      an absent field counts as 0. */
  function ItemAmount(x: LineItem, sf: real): real {
    if x.name == "HVAC" then x.cost.GetOr(0.0) else x.rate.GetOr(0.0) * sf
  }

  /** What an item adds to the toggles total: its amount when included, else 0. */
  function Contribution(x: LineItem, sf: real): real {
    if x.included then ItemAmount(x, sf) else 0.0
  }

  /** `items.filter((item) => item.included)`. */
  function Included(items: seq<LineItem>): (r: seq<LineItem>)
    ensures |r| <= |items|
    ensures forall j :: 0 <= j < |r| ==> r[j].included
  {
    if items == [] then []
    else Included(items[..|items| - 1]) + (if items[|items| - 1].included then [items[|items| - 1]] else [])
  }

  /** The `reduce` over the included items, summed left to right from 0. */
  function SumAmounts(items: seq<LineItem>, sf: real): real {
    if items == [] then 0.0 else SumAmounts(items[..|items| - 1], sf) + ItemAmount(items[|items| - 1], sf)
  }

  function TogglesTotal(items: seq<LineItem>, sf: real): real {
    SumAmounts(Included(items), sf)
  }

  /** The estimate shown on the page. */
  function Total(items: seq<LineItem>, sf: real, scope: string): (r: real)
    ensures scope == "light" ==> r == 10.0 * sf + TogglesTotal(items, sf)
    ensures scope == "mid" ==> r == 20.0 * sf + TogglesTotal(items, sf)
    ensures scope == "gut" ==> r == 45.0 * sf + TogglesTotal(items, sf)
    ensures scope !in {"light", "mid", "gut"} ==> r == TogglesTotal(items, sf)
  {
    BaseRehab(sf, scope) + TogglesTotal(items, sf)
  }

  /** Appending one item adds exactly its contribution. */
  lemma TogglesTotalSnoc(items: seq<LineItem>, x: LineItem, sf: real)
    ensures TogglesTotal(items + [x], sf) == TogglesTotal(items, sf) + Contribution(x, sf)
  {
    assert (items + [x])[..|items|] == items;
    var inc := Included(items);
    if x.included {
      assert (inc + [x])[..|inc|] == inc;
    } else {
      assert inc + [] == inc;
    }
  }

  /** The toggles total of a concatenation is the sum of the two totals. */
  lemma {:induction false} TogglesTotalAppend(a: seq<LineItem>, b: seq<LineItem>, sf: real)
    ensures TogglesTotal(a + b, sf) == TogglesTotal(a, sf) + TogglesTotal(b, sf)
    decreases |b|
  {
    if b == [] {
      assert a + b == a;
    } else {
      var b' := b[..|b| - 1];
      var x := b[|b| - 1];
      assert a + b == (a + b') + [x];
      assert b == b' + [x];
      TogglesTotalAppend(a, b', sf);
      TogglesTotalSnoc(a + b', x, sf);
      TogglesTotalSnoc(b', x, sf);
    }
  }

  /** Two lists whose items contribute the same, position by position, have the
      same toggles total. */
  lemma {:induction false} TogglesTotalPointwise(a: seq<LineItem>, b: seq<LineItem>, sf: real)
    requires |a| == |b|
    requires forall j :: 0 <= j < |a| ==> Contribution(a[j], sf) == Contribution(b[j], sf)
    ensures TogglesTotal(a, sf) == TogglesTotal(b, sf)
    decreases |a|
  {
    if a != [] {
      var n := |a| - 1;
      TogglesTotalPointwise(a[..n], b[..n], sf);
      assert a == a[..n] + [a[n]] && b == b[..n] + [b[n]];
      TogglesTotalSnoc(a[..n], a[n], sf);
      TogglesTotalSnoc(b[..n], b[n], sf);
    }
  }

  /** A list with no included item contributes nothing. */
  lemma {:induction false} NothingIncluded(items: seq<LineItem>, sf: real)
    requires forall j :: 0 <= j < |items| ==> !items[j].included
    ensures TogglesTotal(items, sf) == 0.0
    decreases |items|
  {
    if items != [] {
      var n := |items| - 1;
      NothingIncluded(items[..n], sf);
      assert items == items[..n] + [items[n]];
      TogglesTotalSnoc(items[..n], items[n], sf);
    }
  }

  // ---------------------------------------------------------------------------
  // Editing line items

  /** The three fields the page edits: the toggle, and the amount field
      (`cost` for HVAC, `rate` for the others). */
  datatype ItemEdit = SetIncluded(on: bool) | SetRate(rate: real) | SetCost(cost: real)

  /** `{ ...item, [field]: value }`. */
  function ApplyEdit(x: LineItem, e: ItemEdit): LineItem {
    match e
    case SetIncluded(b) => x.(included := b)
    case SetRate(r) => x.(rate := Some(r))
    case SetCost(c) => x.(cost := Some(c))
  }

  /** `updateItem(id, field, value)`: every item whose id matches gets the one
      field set; the list keeps its length, and every other item and every
      other field stays as it was. */
  function EditItems(items: seq<LineItem>, id: int, e: ItemEdit): (r: seq<LineItem>)
    ensures |r| == |items|
    ensures forall j :: 0 <= j < |items| && items[j].id != id ==> r[j] == items[j]
    ensures forall j :: 0 <= j < |items| ==>
      && r[j].id == items[j].id && r[j].name == items[j].name
      && r[j].included == (if id == items[j].id && e.SetIncluded? then e.on else items[j].included)
      && r[j].rate == (if id == items[j].id && e.SetRate? then Some(e.rate) else items[j].rate)
      && r[j].cost == (if id == items[j].id && e.SetCost? then Some(e.cost) else items[j].cost)
  {
    seq(|items|, j requires 0 <= j < |items| => if items[j].id == id then ApplyEdit(items[j], e) else items[j])
  }

  /** An edit for an id no item has changes nothing. */
  lemma EditUnknownId(items: seq<LineItem>, id: int, e: ItemEdit)
    requires forall j :: 0 <= j < |items| ==> items[j].id != id
    ensures EditItems(items, id, e) == items
  {
  }

  predicate UniqueIds(items: seq<LineItem>) {
    forall i, j :: 0 <= i < j < |items| ==> items[i].id != items[j].id
  }

  /** Toggling the item at `i` (whose id no other item shares) takes its old
      contribution out of the total and puts its amount in when it is switched on. */
  lemma ToggleChangesTotal(items: seq<LineItem>, i: nat, on: bool, sf: real)
    requires i < |items| && UniqueIds(items)
    ensures TogglesTotal(EditItems(items, items[i].id, SetIncluded(on)), sf)
         == TogglesTotal(items, sf) - Contribution(items[i], sf) + (if on then ItemAmount(items[i], sf) else 0.0)
  {
    var r := EditItems(items, items[i].id, SetIncluded(on));
    var pre, post := items[..i], items[i + 1..];
    var x := items[i].(included := on);
    EditOneOfUnique(items, i, SetIncluded(on));
    SplitAt(items, i);
    assert ItemAmount(x, sf) == ItemAmount(items[i], sf);
    TogglesSplit(pre, x, post, sf);
    TogglesSplit(pre, items[i], post, sf);
  }

  /** Editing by a unique id changes exactly that position. */
  lemma EditOneOfUnique(items: seq<LineItem>, i: nat, e: ItemEdit)
    requires i < |items| && UniqueIds(items)
    ensures EditItems(items, items[i].id, e) == items[..i] + [ApplyEdit(items[i], e)] + items[i + 1..]
  {
    var r := EditItems(items, items[i].id, e);
    var s := items[..i] + [ApplyEdit(items[i], e)] + items[i + 1..];
    forall j | 0 <= j < |items| ensures r[j] == s[j] {
      if j != i {
        assert items[j].id != items[i].id;
      }
    }
  }

  lemma SplitAt<T>(s: seq<T>, i: nat)
    requires i < |s|
    ensures s == s[..i] + [s[i]] + s[i + 1..]
  {
  }

  lemma TogglesSplit(pre: seq<LineItem>, x: LineItem, post: seq<LineItem>, sf: real)
    ensures TogglesTotal(pre + [x] + post, sf) == TogglesTotal(pre, sf) + Contribution(x, sf) + TogglesTotal(post, sf)
  {
    TogglesTotalAppend(pre + [x], post, sf);
    TogglesTotalSnoc(pre, x, sf);
  }

  /** `clear`: every item switched off with cost 0; id, name and rate kept. */
  function ClearItems(items: seq<LineItem>): (r: seq<LineItem>)
    ensures |r| == |items|
    ensures forall j :: 0 <= j < |items| ==>
      r[j] == LineItem(items[j].id, items[j].name, false, items[j].rate, Some(0.0))
  {
    seq(|items|, j requires 0 <= j < |items| => items[j].(cost := Some(0.0), included := false))
  }

  /** After `clear` (items cleared, sf 0, scope light) the estimate is 0. */
  lemma ClearedTotalIsZero(items: seq<LineItem>)
    ensures Total(ClearItems(items), 0.0, LightScope) == 0.0
  {
    NothingIncluded(ClearItems(items), 0.0);
  }

  /** With Roof at $8/sf and HVAC at $5000 switched on, 1000 sf at the mid
      scope come to 20000 + 5000 + 8000. */
  lemma TotalExample()
    ensures var items := EditItems(EditItems(DefaultItems, 1, SetRate(8.0)), 1, SetIncluded(true));
            var items' := EditItems(EditItems(items, 3, SetCost(5000.0)), 3, SetIncluded(true));
            Total(items', 1000.0, "mid") == 33000.0
  {
    var items := EditItems(EditItems(DefaultItems, 1, SetRate(8.0)), 1, SetIncluded(true));
    var items' := EditItems(EditItems(items, 3, SetCost(5000.0)), 3, SetIncluded(true));
    assert items'[0] == LineItem(1, "Roof", true, Some(8.0), None);
    assert items'[2] == LineItem(3, "HVAC", true, None, Some(5000.0));
    var roof := LineItem(1, "Roof", true, Some(8.0), None);
    var hvac := LineItem(3, "HVAC", true, None, Some(5000.0));
    var off := [items'[3], items'[4], items'[5]];
    assert items' == [roof, items'[1]] + [hvac] + off;
    assert !items'[1].included && [roof, items'[1]] == [roof] + [items'[1]];
    assert TogglesTotal([], 1000.0) == 0.0;
    TogglesTotalSnoc([roof], items'[1], 1000.0);
    assert [roof] == [] + [roof];
    TogglesTotalSnoc([], roof, 1000.0);
    TogglesTotalSnoc([roof, items'[1]], hvac, 1000.0);
    NothingIncluded(off, 1000.0);
    TogglesTotalAppend([roof, items'[1]] + [hvac], off, 1000.0);
  }

  // ---------------------------------------------------------------------------
  // The stored shape and the migration on load

  /** An item as read back from storage: any field may be missing. */
  datatype StoredItem = StoredItem(id: Option<int>, name: Option<string>, included: Option<bool>,
                                   rate: Option<real>, cost: Option<real>)

  datatype Meta = Meta(sf: Option<real>, scope: Option<string>)

  /** `{ items, meta: { sf, scope } }`, each part possibly missing. */
  datatype RehabRecord = RehabRecord(items: Option<seq<StoredItem>>, meta: Option<Meta>)

  /** A live item as saved: absent fields stay absent. */
  function ToStored(x: LineItem): StoredItem {
    StoredItem(Some(x.id), Some(x.name), Some(x.included), x.rate, x.cost)
  }

  /** The live items as saved, in order. */
  function StoredItems(items: seq<LineItem>): (r: seq<StoredItem>)
    ensures |r| == |items| && forall j :: 0 <= j < |items| ==> r[j] == ToStored(items[j])
  {
    seq(|items|, j requires 0 <= j < |items| => ToStored(items[j]))
  }

  /** The record `saveProject` writes for the current form. */
  function Snapshot(items: seq<LineItem>, sf: real, scope: string): RehabRecord {
    RehabRecord(Some(StoredItems(items)), Some(Meta(Some(sf), Some(scope))))
  }

  /** `Number(v || 0)` for a numeric field that may be missing. */
  function NumberOr0(v: Option<real>): real {
    v.GetOr(0.0)
  }

  /** The field defaults applied to the stored item at position `idx`: id
      `idx + 1`, name "Item <idx + 1>", switched off; a cost is kept, and an
      HVAC item without one gets 0; a rate is kept, a non-HVAC item without one
      takes its legacy cost as rate, an HVAC item gets 0. Afterwards every item
      has a rate, and an HVAC-named item a cost. */
  function MigrateItem(it: StoredItem, idx: nat): (r: LineItem)
    ensures r.rate.Some?
    ensures r.name == "HVAC" ==> r.cost.Some?
  {
    var isHvac := it.name == Some("HVAC");
    LineItem(
      it.id.GetOr(idx + 1),
      it.name.GetOr("Item " + NatToDecimal(idx + 1)),
      it.included.GetOr(false),
      if it.rate.Some? then Some(NumberOr0(it.rate)) else if !isHvac then Some(NumberOr0(it.cost)) else Some(0.0),
      if it.cost.Some? then Some(NumberOr0(it.cost)) else if isHvac then Some(0.0) else None)
  }

  /** The `map` over the stored items. */
  function MigrateItems(stored: seq<StoredItem>): (r: seq<LineItem>)
    ensures |r| == |stored|
    ensures forall j :: 0 <= j < |r| ==> r[j] == MigrateItem(stored[j], j)
  {
    seq(|stored|, j requires 0 <= j < |stored| => MigrateItem(stored[j], j))
  }

  /** Every item other than HVAC has a rate. */
  predicate RateDefined(items: seq<LineItem>) {
    forall j :: 0 <= j < |items| ==> items[j].name != "HVAC" ==> items[j].rate.Some?
  }

  /** Missing fields of a stored item take their documented defaults. */
  lemma MigrateDefaults(it: StoredItem, idx: nat)
    ensures it.id.None? ==> MigrateItem(it, idx).id == idx + 1
    ensures it.name.None? ==> MigrateItem(it, idx).name == "Item " + NatToDecimal(idx + 1)
    ensures it.included.None? ==> !MigrateItem(it, idx).included
    ensures it.rate.None? && it.name != Some("HVAC") ==> MigrateItem(it, idx).rate == Some(NumberOr0(it.cost))
    ensures it.cost.None? && it.name == Some("HVAC") ==> MigrateItem(it, idx).cost == Some(0.0)
  {
  }

  /** An item saved and read back keeps its id, name, switch and contribution. */
  lemma MigrateStored(x: LineItem, idx: nat, sf: real)
    requires x.name != "HVAC" ==> x.rate.Some?
    ensures var y := MigrateItem(ToStored(x), idx);
      y.id == x.id && y.name == x.name && y.included == x.included
      && Contribution(y, sf) == Contribution(x, sf)
  {
  }

  /** The names present in a list, `new Set(items.map((x) => x.name))`. */
  function Names(items: seq<LineItem>): (r: set<string>)
    ensures forall j :: 0 <= j < |items| ==> items[j].name in r
    ensures forall n :: n in r ==> exists j :: 0 <= j < |items| && items[j].name == n
  {
    set j | 0 <= j < |items| :: items[j].name
  }

  /** `Math.max(0, ...items.map((x) => Number(x.id) || 0))`. */
  function NextIdBase(items: seq<LineItem>): (r: int)
    ensures r >= 0
    ensures forall j :: 0 <= j < |items| ==> items[j].id <= r
    ensures r == 0 || exists j :: 0 <= j < |items| && items[j].id == r
  {
    if items == [] then 0
    else
      var m := NextIdBase(items[..|items| - 1]);
      var last := items[|items| - 1].id;
      if last > m then last else m
  }

  /** The catalog items whose names are not in `have`, in catalog order. */
  function Missing(defs: seq<LineItem>, have: set<string>): (r: seq<LineItem>)
    ensures |r| <= |defs|
  {
    if defs == [] then []
    else
      var last := defs[|defs| - 1];
      Missing(defs[..|defs| - 1], have) + (if last.name !in have then [last] else [])
  }

  /** `ds` with ids `start`, `start + 1`, ... in order. */
  function Renumber(ds: seq<LineItem>, start: int): (r: seq<LineItem>)
    ensures |r| == |ds|
  {
    if ds == [] then []
    else Renumber(ds[..|ds| - 1], start) + [ds[|ds| - 1].(id := start + |ds| - 1)]
  }

  /** The missing items are catalog items whose names are not in `have`, and
      every such catalog item is among them. */
  lemma {:induction false} MissingMembers(defs: seq<LineItem>, have: set<string>)
    ensures forall j :: 0 <= j < |Missing(defs, have)| ==> Missing(defs, have)[j] in defs && Missing(defs, have)[j].name !in have
    ensures forall j :: 0 <= j < |defs| && defs[j].name !in have ==> defs[j] in Missing(defs, have)
  {
    if defs != [] {
      var n := |defs| - 1;
      MissingMembers(defs[..n], have);
      assert defs == defs[..n] + [defs[n]];
    }
  }

  /** The missing items are the catalog filtered by the names not in `have`,
      in catalog order. */
  lemma {:induction false} MissingIsFilter(defs: seq<LineItem>, have: set<string>)
    ensures Missing(defs, have) == Filter(defs, (d: LineItem) => d.name !in have)
    decreases |defs|
  {
    if defs != [] {
      var n := |defs| - 1;
      var keep := (d: LineItem) => d.name !in have;
      MissingIsFilter(defs[..n], have);
      assert defs == defs[..n] + [defs[n]];
      FilterAppend(defs[..n], [defs[n]], keep);
      FilterSingle(defs[n], keep);
    }
  }

  /** Renumbering changes only the ids, which count up from `start`. */
  lemma {:induction false} RenumberIds(ds: seq<LineItem>, start: int)
    ensures forall j :: 0 <= j < |ds| ==> Renumber(ds, start)[j] == ds[j].(id := start + j)
  {
    if ds != [] {
      RenumberIds(ds[..|ds| - 1], start);
    }
  }

  /** The list `loadSelected` builds from the catalog `defs`: the migrated
      stored items, then each catalog item whose name they lack, numbered from
      one above the largest id. */
  function Ensured(defs: seq<LineItem>, merged: seq<LineItem>): seq<LineItem> {
    merged + Renumber(Missing(defs, Names(merged)), NextIdBase(merged) + 1)
  }

  /** Every name of the catalog `defs` occurs in the list. */
  predicate HasNamesOf(defs: seq<LineItem>, items: seq<LineItem>) {
    forall j :: 0 <= j < |defs| ==> defs[j].name in Names(items)
  }

  /** Every catalog name occurs in the list. */
  predicate CatalogComplete(items: seq<LineItem>) {
    HasNamesOf(DefaultItems, items)
  }

  /** The properties of the merge: the stored items come first and unchanged;
      every catalog name is present; the added items are catalog items (up to
      their ids) with names the stored items lack and ids counting up from one
      above the largest stored id; the list is never empty. */
  lemma EnsuredProperties(defs: seq<LineItem>, merged: seq<LineItem>)
    ensures |Ensured(defs, merged)| >= |merged| && Ensured(defs, merged)[..|merged|] == merged
    ensures HasNamesOf(defs, Ensured(defs, merged))
    ensures forall j :: |merged| <= j < |Ensured(defs, merged)| ==>
      && Ensured(defs, merged)[j].id == NextIdBase(merged) + 1 + (j - |merged|)
      && Ensured(defs, merged)[j].name !in Names(merged)
      && Ensured(defs, merged)[j].(id := 0) in CatalogWithoutIds(defs)
    ensures defs != [] ==> Ensured(defs, merged) != []
    ensures |Ensured(defs, merged)| == |merged| + |Filter(defs, (d: LineItem) => d.name !in Names(merged))|
    ensures forall j :: |merged| <= j < |Ensured(defs, merged)| ==>
      Ensured(defs, merged)[j] == Filter(defs, (d: LineItem) => d.name !in Names(merged))[j - |merged|].(id := NextIdBase(merged) + 1 + (j - |merged|))
  {
    EnsuredInCatalogOrder(defs, merged);
    EnsuredHasNames(defs, merged);
    EnsuredAdded(defs, merged);
    if defs != [] {
      EnsuredNonEmpty(defs, merged);
    }
  }

  /** A merge with a non-empty catalog is never empty. */
  lemma EnsuredNonEmpty(defs: seq<LineItem>, merged: seq<LineItem>)
    requires defs != []
    ensures Ensured(defs, merged) != []
  {
    if merged == [] {
      MissingMembers(defs, Names(merged));
      assert defs[0].name !in Names(merged);
    }
  }

  lemma EnsuredInCatalogOrder(defs: seq<LineItem>, merged: seq<LineItem>)
    ensures |Ensured(defs, merged)| == |merged| + |Filter(defs, (d: LineItem) => d.name !in Names(merged))|
    ensures forall j :: |merged| <= j < |Ensured(defs, merged)| ==>
      Ensured(defs, merged)[j] == Filter(defs, (d: LineItem) => d.name !in Names(merged))[j - |merged|].(id := NextIdBase(merged) + 1 + (j - |merged|))
  {
    MissingIsFilter(defs, Names(merged));
    EnsuredTail(defs, merged);
  }

  lemma EnsuredTail(defs: seq<LineItem>, merged: seq<LineItem>)
    ensures |Ensured(defs, merged)| == |merged| + |Missing(defs, Names(merged))|
    ensures forall j :: |merged| <= j < |Ensured(defs, merged)| ==>
      Ensured(defs, merged)[j] == Missing(defs, Names(merged))[j - |merged|].(id := NextIdBase(merged) + 1 + (j - |merged|))
  {
    var m := Missing(defs, Names(merged));
    var start := NextIdBase(merged) + 1;
    var r := Ensured(defs, merged);
    RenumberIds(m, start);
    assert r == merged + Renumber(m, start);
    forall j | |merged| <= j < |r| ensures r[j] == m[j - |merged|].(id := start + (j - |merged|)) {
      assert r[j] == Renumber(m, start)[j - |merged|];
    }
  }

  lemma EnsuredHasNames(defs: seq<LineItem>, merged: seq<LineItem>)
    ensures HasNamesOf(defs, Ensured(defs, merged))
  {
    var r := Ensured(defs, merged);
    var have := Names(merged);
    var m := Missing(defs, have);
    MissingMembers(defs, have);
    RenumberIds(m, NextIdBase(merged) + 1);
    forall j | 0 <= j < |defs| ensures defs[j].name in Names(r) {
      var d := defs[j];
      if d.name !in have {
        var k :| 0 <= k < |m| && m[k] == d;
        assert r[|merged| + k].name == d.name;
      } else {
        var i :| 0 <= i < |merged| && merged[i].name == d.name;
        assert r[i] == merged[i];
      }
    }
  }

  lemma EnsuredAdded(defs: seq<LineItem>, merged: seq<LineItem>)
    ensures forall j :: |merged| <= j < |Ensured(defs, merged)| ==>
      && Ensured(defs, merged)[j].id == NextIdBase(merged) + 1 + (j - |merged|)
      && Ensured(defs, merged)[j].name !in Names(merged)
      && Ensured(defs, merged)[j].(id := 0) in CatalogWithoutIds(defs)
  {
    var r := Ensured(defs, merged);
    var m := Missing(defs, Names(merged));
    MissingMembers(defs, Names(merged));
    RenumberIds(m, NextIdBase(merged) + 1);
    forall j | |merged| <= j < |r| ensures r[j].(id := 0) in CatalogWithoutIds(defs) {
      var k :| 0 <= k < |defs| && defs[k] == m[j - |merged|];
      assert r[j].(id := 0) == defs[k].(id := 0);
    }
  }

  /** The catalog entries with their ids blanked. */
  function CatalogWithoutIds(defs: seq<LineItem>): (r: set<LineItem>)
    ensures forall j :: 0 <= j < |defs| ==> defs[j].(id := 0) in r
    ensures forall x :: x in r ==> exists j :: 0 <= j < |defs| && x == defs[j].(id := 0)
  {
    set j | 0 <= j < |defs| :: defs[j].(id := 0)
  }

  /** The `forEach` over the catalog that pushes each missing item with the
      next id. */
  method EnsureCatalog(defs: seq<LineItem>, merged: seq<LineItem>) returns (ensured: seq<LineItem>)
    ensures ensured == Ensured(defs, merged)
  {
    ensured := AddMissing(defs, merged, Names(merged), NextIdBase(merged));
  }

  /** The loop itself, for the names `have` already present and the largest
      id `nextIdBase`. */
  method AddMissing(defs: seq<LineItem>, merged: seq<LineItem>, have: set<string>, nextIdBase: int)
    returns (ensured: seq<LineItem>)
    ensures ensured == merged + Renumber(Missing(defs, have), nextIdBase + 1)
  {
    ensured := merged;
    var addIdx := 1;
    var i := 0;
    while i < |defs|
      invariant 0 <= i <= |defs|
      invariant ensured == merged + Renumber(Missing(defs[..i], have), nextIdBase + 1)
      invariant addIdx == |Missing(defs[..i], have)| + 1
    {
      var def := defs[i];
      EnsureStep(defs, i, have, merged, nextIdBase + 1, ensured, addIdx);
      if def.name !in have {
        ensured := ensured + [def.(id := nextIdBase + addIdx)];
        addIdx := addIdx + 1;
      }
      i := i + 1;
    }
    EnsureDone(defs, i, have, merged, nextIdBase + 1, ensured);
  }

  /** One round of the catalog loop: the list so far grows by the catalog item
      at `i`, renumbered, exactly when its name is missing. */
  lemma EnsureStep(defs: seq<LineItem>, i: nat, have: set<string>, merged: seq<LineItem>, start: int,
                   ensured: seq<LineItem>, addIdx: int)
    requires i < |defs|
    requires ensured == merged + Renumber(Missing(defs[..i], have), start)
    requires addIdx == |Missing(defs[..i], have)| + 1
    ensures defs[i].name !in have ==>
      && ensured + [defs[i].(id := start - 1 + addIdx)] == merged + Renumber(Missing(defs[..i + 1], have), start)
      && addIdx + 1 == |Missing(defs[..i + 1], have)| + 1
    ensures defs[i].name in have ==>
      && ensured == merged + Renumber(Missing(defs[..i + 1], have), start)
      && addIdx == |Missing(defs[..i + 1], have)| + 1
  {
    var m := Missing(defs[..i], have);
    MissingSnoc(defs, i, have);
    if defs[i].name !in have {
      RenumberSnoc(m, defs[i], start);
      AppendAssoc(merged, Renumber(m, start), [defs[i].(id := start + |m|)]);
    } else {
      assert m + [] == m;
    }
  }

  lemma EnsureDone(defs: seq<LineItem>, i: nat, have: set<string>, merged: seq<LineItem>, start: int, ensured: seq<LineItem>)
    requires i == |defs|
    requires ensured == merged + Renumber(Missing(defs[..i], have), start)
    ensures ensured == merged + Renumber(Missing(defs, have), start)
  {
    assert defs[..i] == defs;
  }

  lemma MissingSnoc(defs: seq<LineItem>, i: nat, have: set<string>)
    requires i < |defs|
    ensures Missing(defs[..i + 1], have)
         == Missing(defs[..i], have) + (if defs[i].name !in have then [defs[i]] else [])
  {
    assert defs[..i + 1][..i] == defs[..i];
  }

  lemma RenumberSnoc(ds: seq<LineItem>, d: LineItem, start: int)
    ensures Renumber(ds + [d], start) == Renumber(ds, start) + [d.(id := start + |ds|)]
  {
    assert (ds + [d])[..|ds|] == ds;
  }

  /** The items `loadSelected` installs for a record. */
  function LoadedItems(rec: RehabRecord): seq<LineItem> {
    var e := Ensured(DefaultItems, MigrateItems(rec.items.GetOr([])));
    if |e| > 0 then e else DefaultItems
  }

  /** `Number(meta.sf || 0)`. */
  function LoadedSf(rec: RehabRecord): real {
    if rec.meta.Some? then NumberOr0(rec.meta.value.sf) else 0.0
  }

  /** `meta.scope || "light"`: a missing or empty scope is light. */
  function LoadedScope(rec: RehabRecord): (r: string)
    ensures r != ""
  {
    if rec.meta.Some? && rec.meta.value.scope.Some? && rec.meta.value.scope.value != "" then rec.meta.value.scope.value
    else LightScope
  }

  /** The catalog items are switched off, and all but HVAC have a rate. */
  lemma CatalogShape()
    ensures forall x :: x in CatalogWithoutIds(DefaultItems) ==> !x.included && (x.name != "HVAC" ==> x.rate.Some?)
  {
  }

  /** Loaded items always have a rate, and the whole catalog. */
  lemma LoadedItemsValid(rec: RehabRecord)
    ensures RateDefined(LoadedItems(rec)) && CatalogComplete(LoadedItems(rec))
  {
    var merged := MigrateItems(rec.items.GetOr([]));
    EnsuredProperties(DefaultItems, merged);
    CatalogShape();
    var e := Ensured(DefaultItems, merged);
    forall j | 0 <= j < |e| && e[j].name != "HVAC" ensures e[j].rate.Some? {
      if j >= |merged| {
        assert e[j].(id := 0) in CatalogWithoutIds(DefaultItems);
      } else {
        assert e[j] == merged[j];
      }
    }
  }

  /** Saving and loading again reproduces the estimate: the record keeps sf,
      scope and every item's contribution, and the catalog items the merge may
      add are switched off. */
  lemma SaveLoadKeepsTotal(items: seq<LineItem>, sf: real, scope: string)
    requires RateDefined(items) && scope != ""
    ensures var rec := Snapshot(items, sf, scope);
      LoadedSf(rec) == sf && LoadedScope(rec) == scope
      && Total(LoadedItems(rec), LoadedSf(rec), LoadedScope(rec)) == Total(items, sf, scope)
  {
    var rec := Snapshot(items, sf, scope);
    var merged := MigrateItems(rec.items.value);
    MigratedSnapshotTotal(items, sf);
    CatalogAddsNothing(merged, sf);
  }

  /** Migrating the saved items keeps the toggles total. */
  lemma MigratedSnapshotTotal(items: seq<LineItem>, sf: real)
    requires RateDefined(items)
    ensures TogglesTotal(MigrateItems(StoredItems(items)), sf) == TogglesTotal(items, sf)
  {
    var merged := MigrateItems(StoredItems(items));
    forall j | 0 <= j < |items| ensures Contribution(merged[j], sf) == Contribution(items[j], sf) {
      MigrateStored(items[j], j, sf);
    }
    TogglesTotalPointwise(merged, items, sf);
  }

  /** The catalog items the merge appends are switched off, so the toggles
      total is that of the stored items. */
  lemma CatalogAddsNothing(merged: seq<LineItem>, sf: real)
    ensures TogglesTotal(Ensured(DefaultItems, merged), sf) == TogglesTotal(merged, sf)
  {
    EnsuredAdded(DefaultItems, merged);
    CatalogShape();
    var e := Ensured(DefaultItems, merged);
    var added := Renumber(Missing(DefaultItems, Names(merged)), NextIdBase(merged) + 1);
    assert e == merged + added;
    forall j | 0 <= j < |added| ensures !added[j].included {
      assert added[j] == e[|merged| + j];
      assert e[|merged| + j].(id := 0) in CatalogWithoutIds(DefaultItems);
    }
    NothingIncluded(added, sf);
    TogglesTotalAppend(merged, added, sf);
  }

  /** The items `loadSelected` builds from a record: the migrated stored
      items, completed from the catalog, or the catalog when that is empty. */
  method LoadItems(rec: RehabRecord) returns (loaded: seq<LineItem>)
    ensures loaded == LoadedItems(rec)
    ensures RateDefined(loaded) && CatalogComplete(loaded)
  {
    var merged := MigrateItems(rec.items.GetOr([]));
    var ensured := EnsureCatalog(DefaultItems, merged);
    loaded := if |ensured| > 0 then ensured else DefaultItems;
    LoadedItemsValid(rec);
  }

  // ---------------------------------------------------------------------------
  // The page

  /** The RehabCalc page: the form state and the persisted store, which only
      this page writes. */
  class RehabCalc {
    var items: seq<LineItem>
    var address: string
    var savedList: seq<string>
    var selectedSaved: string
    var sf: real
    var scope: string
    var store: map<string, RehabRecord>

    /** The saved list is the sorted key set of the store, every item but HVAC
        has a rate, and the catalog is complete. */
    ghost predicate Valid()
      reads this
    {
      IsSortedKeyList(savedList, store.Keys) && RateDefined(items) && CatalogComplete(items)
    }

    function CurrentTotal(): real
      reads this
    {
      Total(items, sf, scope)
    }

    /** The page as mounted over the persisted store: the catalog, sf 0,
        light scope, the sorted keys, and the first key selected. */
    constructor (persisted: map<string, RehabRecord>)
      ensures Valid()
      ensures items == DefaultItems && address == "" && sf == 0.0 && scope == LightScope
      ensures store == persisted
      ensures selectedSaved == (if |savedList| > 0 then savedList[0] else "")
    {
      items := DefaultItems;
      address := "";
      sf := 0.0;
      scope := LightScope;
      store := persisted;
      var keys := SortedKeys(persisted.Keys);
      savedList := keys;
      selectedSaved := if |keys| > 0 then keys[0] else "";
      new;
      assert DefaultItems[0].name in Names(DefaultItems);
      assert DefaultItems[1].name in Names(DefaultItems);
      assert DefaultItems[2].name in Names(DefaultItems);
      assert DefaultItems[3].name in Names(DefaultItems);
      assert DefaultItems[4].name in Names(DefaultItems);
      assert DefaultItems[5].name in Names(DefaultItems);
    }

    /** `updateItem(id, field, value)`. */
    method UpdateItem(id: int, e: ItemEdit)
      requires Valid()
      modifies this
      ensures Valid()
      ensures items == EditItems(old(items), id, e)
      ensures address == old(address) && savedList == old(savedList) && selectedSaved == old(selectedSaved)
      ensures sf == old(sf) && scope == old(scope) && store == old(store)
    {
      items := EditItems(items, id, e);
      assert Names(items) == Names(old(items)) by {
        forall n | n in Names(old(items)) ensures n in Names(items) {
          var j :| 0 <= j < |old(items)| && old(items)[j].name == n;
          assert items[j].name == n;
        }
      }
    }

    /** The square-footage field: `setSf(toNumber(text))`. */
    method SetSf(text: string)
      requires Valid()
      modifies this
      ensures Valid()
      ensures sf == ToNumber(Some(text))
      ensures items == old(items) && address == old(address) && savedList == old(savedList)
      ensures selectedSaved == old(selectedSaved) && scope == old(scope) && store == old(store)
    {
      sf := ToNumber(Some(text));
    }

    /** The scope select: the chosen option's key, as given. */
    method SetScope(k: string)
      requires Valid()
      modifies this
      ensures Valid()
      ensures scope == k
      ensures items == old(items) && address == old(address) && savedList == old(savedList)
      ensures selectedSaved == old(selectedSaved) && sf == old(sf) && store == old(store)
    {
      scope := k;
    }

    /** `clear`. */
    method Clear()
      requires Valid()
      modifies this
      ensures Valid()
      ensures items == ClearItems(old(items)) && sf == 0.0 && scope == LightScope
      ensures CurrentTotal() == 0.0
      ensures address == old(address) && savedList == old(savedList)
      ensures selectedSaved == old(selectedSaved) && store == old(store)
    {
      items := ClearItems(items);
      sf := 0.0;
      scope := LightScope;
      ClearedTotalIsZero(old(items));
      assert Names(items) == Names(old(items)) by {
        forall n | n in Names(old(items)) ensures n in Names(items) {
          var j :| 0 <= j < |old(items)| && old(items)[j].name == n;
          assert items[j].name == n;
        }
      }
    }

    /** `saveProject`: under the trimmed address, replace exactly that entry
        with the current form; a blank address alerts and changes nothing. */
    method SaveProject() returns (o: Outcome)
      requires Valid()
      modifies this
      ensures Valid()
      ensures Trim(old(address)) == "" ==> o == Alert("Enter an address before saving.") && unchanged(this)
      ensures Trim(old(address)) != "" ==>
        && o == Done
        && store == old(store)[Trim(old(address)) := Snapshot(old(items), old(sf), old(scope))]
        && selectedSaved == Trim(old(address))
        && items == old(items) && address == old(address) && sf == old(sf) && scope == old(scope)
    {
      var key := Trim(address);
      if key == "" {
        return Alert("Enter an address before saving.");
      }
      store := store[key := Snapshot(items, sf, scope)];
      var keys := SortedKeys(store.Keys);
      savedList := keys;
      selectedSaved := key;
      return Done;
    }

    /** `deleteCurrent`: delete the entry under the trimmed address after the
        user confirms; the selection moves to the first remaining key only if
        it was the deleted one. */
    method DeleteCurrent(confirmed: bool) returns (o: Outcome)
      requires Valid()
      modifies this
      ensures Valid()
      ensures var key := Trim(old(address));
        && (key == "" ==> o == Alert("Enter the address you want to delete, or use the dropdown below.") && unchanged(this))
        && (key != "" && key !in old(store) ==> o == Alert("No saved project found for that address.") && unchanged(this))
        && (key != "" && key in old(store) && !confirmed ==> o == Ignored && unchanged(this))
        && (key != "" && key in old(store) && confirmed ==>
            && o == Done
            && store == old(store) - {key}
            && selectedSaved == (if old(selectedSaved) == key then (if |savedList| > 0 then savedList[0] else "") else old(selectedSaved))
            && items == old(items) && address == old(address) && sf == old(sf) && scope == old(scope))
    {
      var key := Trim(address);
      if key == "" {
        return Alert("Enter the address you want to delete, or use the dropdown below.");
      }
      if key !in store {
        return Alert("No saved project found for that address.");
      }
      if !confirmed {
        return Ignored;
      }
      store := store - {key};
      var keys := SortedKeys(store.Keys);
      savedList := keys;
      if selectedSaved == key {
        selectedSaved := if |keys| > 0 then keys[0] else "";
      }
      return Done;
    }

    /** The saved-projects dropdown. */
    method SelectSaved(k: string)
      modifies this
      ensures selectedSaved == k
      ensures items == old(items) && address == old(address) && savedList == old(savedList)
      ensures sf == old(sf) && scope == old(scope) && store == old(store)
    {
      selectedSaved := k;
    }

    /** The address field. */
    method SetAddress(a: string)
      modifies this
      ensures address == a
      ensures items == old(items) && savedList == old(savedList) && selectedSaved == old(selectedSaved)
      ensures sf == old(sf) && scope == old(scope) && store == old(store)
    {
      address := a;
    }

    /** `loadSelected`: the selected record, migrated and completed to the
        catalog, with its sf and scope; nothing happens without a selection or
        a record. */
    method LoadSelected() returns (o: Outcome)
      requires Valid()
      modifies this
      ensures Valid()
      ensures old(selectedSaved) == "" || old(selectedSaved) !in old(store) ==> o == Ignored && unchanged(this)
      ensures old(selectedSaved) != "" && old(selectedSaved) in old(store) ==>
        var rec := old(store)[old(selectedSaved)];
        && o == Done
        && address == old(selectedSaved)
        && items == LoadedItems(rec) && sf == LoadedSf(rec) && scope == LoadedScope(rec)
        && store == old(store) && savedList == old(savedList) && selectedSaved == old(selectedSaved)
    {
      if selectedSaved == "" || selectedSaved !in store {
        return Ignored;
      }
      var rec := store[selectedSaved];
      address := selectedSaved;
      items := LoadItems(rec);
      sf := LoadedSf(rec);
      scope := LoadedScope(rec);
      return Done;
    }

    /** `deleteSelected`: delete the selected entry after the user confirms and
        select the first remaining key. */
    method DeleteSelected(confirmed: bool) returns (o: Outcome)
      requires Valid()
      modifies this
      ensures Valid()
      ensures var key := old(selectedSaved);
        && (key == "" || key !in old(store) || !confirmed ==> o == Ignored && unchanged(this))
        && (key != "" && key in old(store) && confirmed ==>
            && o == Done
            && store == old(store) - {key}
            && selectedSaved == (if |savedList| > 0 then savedList[0] else "")
            && items == old(items) && address == old(address) && sf == old(sf) && scope == old(scope))
    {
      if selectedSaved == "" || selectedSaved !in store || !confirmed {
        return Ignored;
      }
      store := store - {selectedSaved};
      var keys := SortedKeys(store.Keys);
      savedList := keys;
      selectedSaved := if |keys| > 0 then keys[0] else "";
      return Done;
    }
  }
}
