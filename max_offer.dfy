/** Max Offer: four loan-to-value tiers from the after-repair value and the
    rehab cost, a list of saved offers keyed by normalised address, and a pull
    of the rehab total from a RehabCalc record. */
module MaxOffer {
  import opened Results
  import opened JsText
  import opened JsNumber
  import opened Rehab
  import opened JsArray

  // ---------------------------------------------------------------------------
  // The rehab total of a stored RehabCalc record

  /** Dollars per square foot by scope: 20 for mid, 45 for gut, and 10 for
      light and for every other key. */
  function RateByScope(scope: string): (r: real)
    ensures scope == "mid" ==> r == 20.0
    ensures scope == "gut" ==> r == 45.0
    ensures scope != "mid" && scope != "gut" ==> r == 10.0
  {
    if scope == "mid" then 20.0 else if scope == "gut" then 45.0 else 10.0
  }

  /** `Number(meta.sf || 0)` with `meta = rec.meta || {}`. */
  function RecordSf(rec: RehabRecord): real {
    if rec.meta.Some? then NumberOr0(rec.meta.value.sf) else 0.0
  }

  /** `meta.scope || "light"`. */
  function RecordScope(rec: RehabRecord): string {
    if rec.meta.Some? && rec.meta.value.scope.Some? && rec.meta.value.scope.value != "" then rec.meta.value.scope.value
    else LightScope
  }

  /** What a stored item adds: nothing unless it is switched on; HVAC its cost,
      any other item its rate (its legacy cost when it has no rate) times sf. */
  function StoredContribution(it: StoredItem, sf: real): real {
    if it.included != Some(true) then 0.0
    else if it.name == Some("HVAC") then NumberOr0(it.cost)
    else (if it.rate.Some? then NumberOr0(it.rate) else NumberOr0(it.cost)) * sf
  }

  /** The `reduce` over the stored items, left to right from 0. */
  function RecordToggles(items: seq<StoredItem>, sf: real): real {
    if items == [] then 0.0 else RecordToggles(items[..|items| - 1], sf) + StoredContribution(items[|items| - 1], sf)
  }

  /** `computeRehabTotalFromRecord(rec)`: 0 for a missing record, otherwise sf
      times the rate of the scope plus the switched-on items. */
  function ComputeRehabTotalFromRecord(rec: Option<RehabRecord>): (r: real)
    ensures rec.None? ==> r == 0.0
    ensures rec.Some? && rec.value.items.None? ==> r == RecordSf(rec.value) * RateByScope(RecordScope(rec.value))
  {
    match rec
    case None => 0.0
    case Some(x) =>
      var sf := RecordSf(x);
      sf * RateByScope(RecordScope(x)) + RecordToggles(x.items.GetOr([]), sf)
  }

  /** The stored items of a RehabCalc save add what the live items add. */
  lemma {:induction false} RecordTogglesOfStored(items: seq<LineItem>, sf: real)
    requires RateDefined(items)
    ensures RecordToggles(StoredItems(items), sf) == TogglesTotal(items, sf)
    decreases |items|
  {
    if items != [] {
      var n := |items| - 1;
      var stored := StoredItems(items);
      assert stored[..n] == StoredItems(items[..n]);
      RecordTogglesOfStored(items[..n], sf);
      StoredContributionOfItem(items[n], sf);
      assert RecordToggles(stored, sf) == RecordToggles(stored[..n], sf) + StoredContribution(ToStored(items[n]), sf);
      assert items == items[..n] + [items[n]];
      TogglesTotalSnoc(items[..n], items[n], sf);
    }
  }

  lemma StoredContributionOfItem(x: LineItem, sf: real)
    requires x.name != "HVAC" ==> x.rate.Some?
    ensures StoredContribution(ToStored(x), sf) == Contribution(x, sf)
  {
  }

  /** For a record written by RehabCalc's save, with every item but HVAC
      carrying a rate, the recomputed total is RehabCalc's own total for the
      three known scopes; for any other scope, the empty one included,
      RehabCalc counts 0 per square foot and this page 10. */
  lemma RecordTotalOfSnapshot(items: seq<LineItem>, sf: real, scope: string)
    requires RateDefined(items)
    ensures ComputeRehabTotalFromRecord(Some(Snapshot(items, sf, scope)))
         == Total(items, sf, scope) + (if scope in {"light", "mid", "gut"} then 0.0 else 10.0 * sf)
  {
    RecordTogglesOfStored(items, sf);
  }

  /** For any stored record, the recomputed total is what RehabCalc shows
      after loading the same record, except that a scope outside the three
      known ones counts 10 per square foot here and 0 there. */
  lemma RecordTotalOfLoaded(rec: RehabRecord)
    ensures ComputeRehabTotalFromRecord(Some(rec))
         == Total(LoadedItems(rec), LoadedSf(rec), LoadedScope(rec))
            + (if LoadedScope(rec) in {"light", "mid", "gut"} then 0.0 else 10.0 * LoadedSf(rec))
  {
    LoadedToggles(rec);
    RecordTotalUnfold(rec);
    ScopeRatesDiffer(LoadedItems(rec), RecordSf(rec), RecordScope(rec));
  }

  /** This page's rate and RehabCalc's agree on the three known scopes; on
      any other this page adds 10 per square foot. */
  lemma ScopeRatesDiffer(items: seq<LineItem>, sf: real, scope: string)
    ensures sf * RateByScope(scope) + TogglesTotal(items, sf)
         == Total(items, sf, scope) + (if scope in {"light", "mid", "gut"} then 0.0 else 10.0 * sf)
  {
    if scope !in {"light", "mid", "gut"} {
      assert RateByScope(scope) == 10.0 && RateByKey(scope) == 0.0;
    }
  }

  lemma RecordTotalUnfold(rec: RehabRecord)
    ensures ComputeRehabTotalFromRecord(Some(rec))
         == RecordSf(rec) * RateByScope(RecordScope(rec)) + RecordToggles(rec.items.GetOr([]), RecordSf(rec))
  {
  }

  /** The loaded items add what the record's items add. */
  lemma LoadedToggles(rec: RehabRecord)
    ensures LoadedSf(rec) == RecordSf(rec) && LoadedScope(rec) == RecordScope(rec)
    ensures TogglesTotal(LoadedItems(rec), RecordSf(rec)) == RecordToggles(rec.items.GetOr([]), RecordSf(rec))
  {
    var merged := MigrateItems(rec.items.GetOr([]));
    MigratedToggles(rec.items.GetOr([]), RecordSf(rec));
    CatalogAddsNothing(merged, RecordSf(rec));
    EnsuredNonEmpty(DefaultItems, merged);
  }

  /** Migrating stored items keeps what each adds, so the toggles total of the
      migrated items is the record's `reduce`. */
  lemma {:induction false} MigratedToggles(stored: seq<StoredItem>, sf: real)
    ensures TogglesTotal(MigrateItems(stored), sf) == RecordToggles(stored, sf)
    decreases |stored|
  {
    if stored == [] {
      assert MigrateItems(stored) == [];
    } else {
      var n := |stored| - 1;
      var m := MigrateItems(stored);
      assert m == MigrateItems(stored[..n]) + [MigrateItem(stored[n], n)];
      MigratedToggles(stored[..n], sf);
      TogglesTotalSnoc(MigrateItems(stored[..n]), MigrateItem(stored[n], n), sf);
      MigratedContribution(stored[n], n, sf);
    }
  }

  /** A migrated item adds what the stored item adds. */
  lemma MigratedContribution(it: StoredItem, idx: nat, sf: real)
    ensures Contribution(MigrateItem(it, idx), sf) == StoredContribution(it, sf)
  {
    if it.name.None? {
      var name := "Item " + NatToDecimal(idx + 1);
      assert name[0] == 'I';
      assert MigrateItem(it, idx).name != "HVAC";
    }
  }

  // ---------------------------------------------------------------------------
  // The tiers

  /** One row of the offer table. */
  datatype Tier = Tier(ltv: real, number: real, offerAfterRehab: real)

  const Ltvs: seq<real> := [0.8, 0.75, 0.7, 0.65]

  /** The four tiers, in the order 0.8, 0.75, 0.7, 0.65: the ARV share and the
      offer left after the rehab cost, which may be negative. */
  function Tiers(arv: real, rehab: real): (r: seq<Tier>)
    ensures |r| == 4
    ensures forall i :: 0 <= i < 4 ==> r[i].ltv == Ltvs[i]
    ensures forall i :: 0 <= i < 4 ==> r[i].number == arv * r[i].ltv && r[i].offerAfterRehab == r[i].number - rehab
  {
    seq(4, i requires 0 <= i < 4 => Tier(Ltvs[i], arv * Ltvs[i], arv * Ltvs[i] - rehab))
  }

  /** For a non-negative ARV, both columns never increase down the table. */
  lemma TiersDecrease(arv: real, rehab: real)
    requires arv >= 0.0
    ensures forall i, j :: 0 <= i < j < 4 ==> Tiers(arv, rehab)[j].number <= Tiers(arv, rehab)[i].number
    ensures forall i, j :: 0 <= i < j < 4 ==>
      Tiers(arv, rehab)[j].offerAfterRehab <= Tiers(arv, rehab)[i].offerAfterRehab
  {
    var t := Tiers(arv, rehab);
    forall i, j | 0 <= i < j < 4 ensures t[j].number <= t[i].number {
      assert Ltvs[j] <= Ltvs[i];
      MulMonotone(arv, Ltvs[j], Ltvs[i]);
    }
  }

  /** Scaling by a non-negative ARV keeps the order of two LTVs; used by
      TiersDecrease. */
  lemma MulMonotone(a: real, x: real, y: real)
    requires a >= 0.0 && x <= y
    ensures a * x <= a * y
  {
  }

  /** ARV 300000 and rehab 50000 give 240000/190000 at 0.8 and 195000/145000 at 0.65. */
  lemma TiersExample()
    ensures Tiers(300000.0, 50000.0)[0] == Tier(0.8, 240000.0, 190000.0)
    ensures Tiers(300000.0, 50000.0)[3] == Tier(0.65, 195000.0, 145000.0)
  {
  }

  // ---------------------------------------------------------------------------
  // The saved offers

  /** A saved offer; the numeric fields are kept as the text typed. */
  datatype OfferProject = OfferProject(id: int, address: string, arv: string, rehab: string, rehabFrom: string)

  /** `s.trim().toLowerCase()`. */
  function Norm(s: string): string {
    Lower(Trim(s))
  }

  /** `list.findIndex(...)` on normalised addresses: the first position whose
      address matches, or -1. */
  function FindIndexByAddress(list: seq<OfferProject>, address: string): (r: int)
    ensures -1 <= r < |list|
    ensures r >= 0 ==> Norm(list[r].address) == Norm(address)
    ensures forall k :: 0 <= k < |list| && (r < 0 || k < r) ==> Norm(list[k].address) != Norm(address)
  {
    if list == [] then -1
    else if Norm(list[0].address) == Norm(address) then 0
    else
      var k := FindIndexByAddress(list[1..], address);
      if k < 0 then -1 else k + 1
  }

  /** `{ ...prev, ...item, id: prev.id || item.id }`: the new fields with the
      old id, unless that id is 0. */
  function MergeEntry(prev: OfferProject, item: OfferProject): (r: OfferProject)
    ensures r.address == item.address && r.arv == item.arv && r.rehab == item.rehab && r.rehabFrom == item.rehabFrom
    ensures r.id == (if prev.id != 0 then prev.id else item.id)
  {
    item.(id := if prev.id != 0 then prev.id else item.id)
  }

  /** `upsertProject(list, item)`: replace the first entry with the same
      normalised address, or put the item in front. */
  function Upsert(list: seq<OfferProject>, item: OfferProject): (r: seq<OfferProject>)
    ensures var idx := FindIndexByAddress(list, item.address);
      && (idx >= 0 ==> |r| == |list| && r[idx] == MergeEntry(list[idx], item)
                       && forall k :: 0 <= k < |list| && k != idx ==> r[k] == list[k])
      && (idx < 0 ==> r == [item] + list)
  {
    var idx := FindIndexByAddress(list, item.address);
    if idx >= 0 then list[idx := MergeEntry(list[idx], item)] else [item] + list
  }

  /** No two entries share a normalised address. */
  predicate NormUnique(list: seq<OfferProject>) {
    forall i, j :: 0 <= i < j < |list| ==> Norm(list[i].address) != Norm(list[j].address)
  }

  /** Upserting keeps the normalised addresses distinct. */
  lemma UpsertKeepsNormUnique(list: seq<OfferProject>, item: OfferProject)
    requires NormUnique(list)
    ensures NormUnique(Upsert(list, item))
  {
    var r := Upsert(list, item);
    var idx := FindIndexByAddress(list, item.address);
    if idx < 0 {
      forall i, j | 0 <= i < j < |r| ensures Norm(r[i].address) != Norm(r[j].address) {
        if i == 0 {
          assert r[j] == list[j - 1];
        } else {
          assert r[i] == list[i - 1] && r[j] == list[j - 1];
        }
      }
    } else {
      assert Norm(r[idx].address) == Norm(list[idx].address);
      forall i, j | 0 <= i < j < |r| ensures Norm(r[i].address) != Norm(r[j].address) {
        assert Norm(r[i].address) == Norm(list[i].address);
        assert Norm(r[j].address) == Norm(list[j].address);
      }
    }
  }

  /** After an upsert the item's address is found, at an entry holding the
      item's fields. */
  lemma UpsertThenFind(list: seq<OfferProject>, item: OfferProject)
    ensures var r := Upsert(list, item);
      var k := FindIndexByAddress(r, item.address);
      k >= 0 && r[k].address == item.address && r[k].arv == item.arv
      && r[k].rehab == item.rehab && r[k].rehabFrom == item.rehabFrom
  {
    var r := Upsert(list, item);
    var idx := FindIndexByAddress(list, item.address);
    var k := FindIndexByAddress(r, item.address);
    if idx >= 0 {
      assert Norm(r[idx].address) == Norm(item.address);
      assert forall j :: 0 <= j < idx ==> r[j] == list[j];
    } else {
      assert Norm(r[0].address) == Norm(item.address);
    }
  }

  /** Saving twice under the same normalised address adds at most one entry:
      the second save rewrites, in place, the entry the first one left, and
      keeps that entry's id unless it is 0. */
  lemma UpsertTwice(list: seq<OfferProject>, a: OfferProject, b: OfferProject)
    requires Norm(a.address) == Norm(b.address)
    ensures |Upsert(Upsert(list, a), b)| == |list| + (if FindIndexByAddress(list, a.address) >= 0 then 0 else 1)
    ensures var r1 := Upsert(list, a);
      var r2 := Upsert(r1, b);
      var k := FindIndexByAddress(r1, a.address);
      && k >= 0 && FindIndexByAddress(r2, b.address) == k
      && r2[k] == b.(id := if r1[k].id != 0 then r1[k].id else b.id)
  {
    var r1 := Upsert(list, a);
    var r2 := Upsert(r1, b);
    UpsertThenFind(list, a);
    var k := FindIndexByAddress(r1, a.address);
    SameNormSameIndex(r1, a.address, b.address);
    assert r2 == r1[k := MergeEntry(r1[k], b)];
    assert Norm(r2[k].address) == Norm(b.address);
    assert forall j :: 0 <= j < k ==> r2[j] == r1[j];
  }

  /** The position found depends only on the normalised address. */
  lemma SameNormSameIndex(list: seq<OfferProject>, x: string, y: string)
    requires Norm(x) == Norm(y)
    ensures FindIndexByAddress(list, x) == FindIndexByAddress(list, y)
  {
  }

  /** `list.find((x) => String(x.id) === String(selectedId))`. */
  function FindById(list: seq<OfferProject>, sel: string): (r: Option<OfferProject>)
    ensures r.Some? ==> IntToString(r.value.id) == sel
    ensures r.Some? ==> exists i :: 0 <= i < |list| && list[i] == r.value
                          && forall j :: 0 <= j < i ==> IntToString(list[j].id) != sel
    ensures r.None? ==> forall k :: 0 <= k < |list| ==> IntToString(list[k].id) != sel
  {
    if list == [] then None
    else if IntToString(list[0].id) == sel then Some(list[0])
    else FindById(list[1..], sel)
  }

  /** `list.filter((x) => String(x.id) !== String(selectedId))`. */
  function FilterOutId(list: seq<OfferProject>, sel: string): (r: seq<OfferProject>)
    ensures |r| <= |list|
  {
    Filter(list, (x: OfferProject) => IntToString(x.id) != sel)
  }

  /** Deleting keeps order: deleting from a concatenation deletes from each
      part in turn, and a single entry stays exactly when its id text differs
      from the selection. */
  lemma FilterOutIdAppend(a: seq<OfferProject>, b: seq<OfferProject>, sel: string)
    ensures FilterOutId(a + b, sel) == FilterOutId(a, sel) + FilterOutId(b, sel)
    ensures forall x :: FilterOutId([x], sel) == if IntToString(x.id) != sel then [x] else []
  {
    FilterAppend(a, b, (x: OfferProject) => IntToString(x.id) != sel);
    forall x ensures FilterOutId([x], sel) == if IntToString(x.id) != sel then [x] else [] {
      FilterSingle(x, (x: OfferProject) => IntToString(x.id) != sel);
    }
  }

  /** Deleting the id selected from the list removes exactly the entries with
      that id. */
  lemma DeleteById(list: seq<OfferProject>, id: int)
    ensures forall x :: x in FilterOutId(list, IntToString(id)) <==> x in list && x.id != id
  {
    FilterMembers(list, (x: OfferProject) => IntToString(x.id) != IntToString(id));
    forall x ensures x in FilterOutId(list, IntToString(id)) <==> x in list && x.id != id {
      IntToStringInjective(x.id, id);
    }
  }

  // ---------------------------------------------------------------------------
  // Pulling the rehab total

  /** `Object.keys(store).find((k) => norm(k) === norm(address))`. */
  function FirstMatchingKey(keys: seq<string>, address: string): (r: Option<string>)
    ensures r.Some? ==> Norm(r.value) == Norm(address)
    ensures r.Some? ==> exists i :: 0 <= i < |keys| && keys[i] == r.value
                          && forall j :: 0 <= j < i ==> Norm(keys[j]) != Norm(address)
    ensures r.None? ==> forall k :: 0 <= k < |keys| ==> Norm(keys[k]) != Norm(address)
  {
    if keys == [] then None
    else if Norm(keys[0]) == Norm(address) then Some(keys[0])
    else FirstMatchingKey(keys[1..], address)
  }

  /** The key the pull uses: the explicit pick when there is one; otherwise,
      for a non-blank address, the first key matching it after trimming and
      lower-casing; otherwise none. */
  function ResolveRehabKey(pick: string, address: string, keyOrder: seq<string>): (r: Option<string>)
    ensures pick != "" ==> r == Some(pick)
    ensures pick == "" && r.Some? ==> Norm(r.value) == Norm(address) && Trim(address) != ""
    ensures pick == "" && r.Some? ==> exists i :: 0 <= i < |keyOrder| && keyOrder[i] == r.value
                                         && forall j :: 0 <= j < i ==> Norm(keyOrder[j]) != Norm(address)
    ensures pick == "" && r.None? ==> Trim(address) == "" || forall k :: 0 <= k < |keyOrder| ==> Norm(keyOrder[k]) != Norm(address)
  {
    if pick != "" then Some(pick)
    else if Trim(address) != "" then FirstMatchingKey(keyOrder, address)
    else None
  }

  /** A matched key is never blank, since its normalised form is that of a
      non-blank address. */
  lemma MatchedKeyNotBlank(pick: string, address: string, keyOrder: seq<string>)
    requires ResolveRehabKey(pick, address, keyOrder).Some?
    ensures ResolveRehabKey(pick, address, keyOrder).value != ""
  {
    var k := ResolveRehabKey(pick, address, keyOrder).value;
    if pick == "" {
      assert Trim(address) != "";
      assert |Norm(address)| == |Trim(address)|;
      assert Norm("") == "" by { assert Trim("") == ""; }
    }
  }

  // ---------------------------------------------------------------------------
  // The page

  /** The Max Offer page: the form, the saved offers, and what it remembers
      of RehabCalc. */
  class MaxOfferPage {
    var arv: string
    var rehab: string
    var address: string
    var projects: seq<OfferProject>
    var selectedId: string
    var rehabSavedKeys: seq<string>
    var rehabPick: string
    var rehabFrom: string

    /** The table shown for the current fields. */
    function CurrentTiers(): seq<Tier>
      reads this
    {
      Tiers(ToNumber(Some(arv)), ToNumber(Some(rehab)))
    }

    /** The page as mounted: the saved offers, the sorted RehabCalc keys and
        the first of them picked. */
    constructor (persisted: seq<OfferProject>, rehabStore: map<string, RehabRecord>)
      ensures arv == "" && rehab == "" && address == "" && selectedId == "" && rehabFrom == ""
      ensures projects == persisted
      ensures IsSortedKeyList(rehabSavedKeys, rehabStore.Keys)
      ensures rehabPick == (if |rehabSavedKeys| > 0 then rehabSavedKeys[0] else "")
    {
      arv := "";
      rehab := "";
      address := "";
      projects := persisted;
      selectedId := "";
      rehabFrom := "";
      var keys := SortedKeys(rehabStore.Keys);
      rehabSavedKeys := keys;
      rehabPick := if |keys| > 0 then keys[0] else "";
    }

    method SetAddress(a: string)
      modifies this
      ensures address == a
      ensures arv == old(arv) && rehab == old(rehab) && projects == old(projects) && selectedId == old(selectedId)
      ensures rehabSavedKeys == old(rehabSavedKeys) && rehabPick == old(rehabPick) && rehabFrom == old(rehabFrom)
    {
      address := a;
    }

    /** The two amount fields. */
    method SetAmounts(newArv: string, newRehab: string)
      modifies this
      ensures arv == newArv && rehab == newRehab
      ensures address == old(address) && projects == old(projects) && selectedId == old(selectedId)
      ensures rehabSavedKeys == old(rehabSavedKeys) && rehabPick == old(rehabPick) && rehabFrom == old(rehabFrom)
    {
      arv := newArv;
      rehab := newRehab;
    }

    /** The saved-offers dropdown, whose values are `String(id)`. */
    method SelectProject(sel: string)
      modifies this
      ensures selectedId == sel
      ensures arv == old(arv) && rehab == old(rehab) && address == old(address) && projects == old(projects)
      ensures rehabSavedKeys == old(rehabSavedKeys) && rehabPick == old(rehabPick) && rehabFrom == old(rehabFrom)
    {
      selectedId := sel;
    }

    /** The RehabCalc dropdown. */
    method SetRehabPick(k: string)
      modifies this
      ensures rehabPick == k
      ensures arv == old(arv) && rehab == old(rehab) && address == old(address) && projects == old(projects)
      ensures selectedId == old(selectedId) && rehabSavedKeys == old(rehabSavedKeys) && rehabFrom == old(rehabFrom)
    {
      rehabPick := k;
    }

    /** `clearValues`: only the two amounts are emptied. */
    method ClearValues()
      modifies this
      ensures arv == "" && rehab == ""
      ensures address == old(address) && projects == old(projects) && selectedId == old(selectedId)
      ensures rehabSavedKeys == old(rehabSavedKeys) && rehabPick == old(rehabPick) && rehabFrom == old(rehabFrom)
    {
      arv := "";
      rehab := "";
    }

    /** `resetForm`: the amounts, the address, the selection and the rehab
        source are emptied; the rehab pick stays. */
    method ResetForm()
      modifies this
      ensures arv == "" && rehab == "" && address == "" && selectedId == "" && rehabFrom == ""
      ensures projects == old(projects) && rehabSavedKeys == old(rehabSavedKeys) && rehabPick == old(rehabPick)
    {
      arv := "";
      rehab := "";
      address := "";
      selectedId := "";
      rehabFrom := "";
    }

    /** `saveProject`: upsert the form under the trimmed address with a fresh
        id; a blank address alerts and changes nothing. */
    method SaveProject(freshId: int) returns (o: Outcome)
      modifies this
      ensures Trim(old(address)) == "" ==> o == Alert("Enter an address to save") && unchanged(this)
      ensures Trim(old(address)) != "" ==>
        && o == Done
        && projects == Upsert(old(projects), OfferProject(freshId, Trim(old(address)), old(arv), old(rehab), old(rehabFrom)))
        && arv == old(arv) && rehab == old(rehab) && address == old(address) && selectedId == old(selectedId)
        && rehabSavedKeys == old(rehabSavedKeys) && rehabPick == old(rehabPick) && rehabFrom == old(rehabFrom)
      ensures NormUnique(old(projects)) ==> NormUnique(projects)
    {
      var addr := Trim(address);
      if addr == "" {
        return Alert("Enter an address to save");
      }
      var payload := OfferProject(freshId, addr, arv, rehab, rehabFrom);
      if NormUnique(projects) {
        UpsertKeepsNormUnique(projects, payload);
      }
      projects := Upsert(projects, payload);
      return Done;
    }

    /** `loadSelected`: copy the selected offer into the form, and pick its
        rehab source when it has one. */
    method LoadSelected() returns (o: Outcome)
      modifies this
      ensures FindById(old(projects), old(selectedId)).None? ==> o == Alert("Pick a saved project to load") && unchanged(this)
      ensures FindById(old(projects), old(selectedId)).Some? ==>
        var p := FindById(old(projects), old(selectedId)).value;
        && o == Done
        && address == p.address && arv == p.arv && rehab == p.rehab && rehabFrom == p.rehabFrom
        && rehabPick == (if p.rehabFrom != "" then p.rehabFrom else old(rehabPick))
        && projects == old(projects) && selectedId == old(selectedId) && rehabSavedKeys == old(rehabSavedKeys)
    {
      var found := FindById(projects, selectedId);
      if found.None? {
        return Alert("Pick a saved project to load");
      }
      var p := found.value;
      address := p.address;
      arv := p.arv;
      rehab := p.rehab;
      rehabFrom := p.rehabFrom;
      if p.rehabFrom != "" {
        rehabPick := p.rehabFrom;
      }
      return Done;
    }

    /** `deleteSelected`: drop every offer with the selected id and clear the
        selection; without a selection it alerts. */
    method DeleteSelected() returns (o: Outcome)
      modifies this
      ensures old(selectedId) == "" ==> o == Alert("Pick a saved project to delete") && unchanged(this)
      ensures old(selectedId) != "" ==>
        && o == Done
        && projects == FilterOutId(old(projects), old(selectedId)) && selectedId == ""
        && arv == old(arv) && rehab == old(rehab) && address == old(address)
        && rehabSavedKeys == old(rehabSavedKeys) && rehabPick == old(rehabPick) && rehabFrom == old(rehabFrom)
    {
      if selectedId == "" {
        return Alert("Pick a saved project to delete");
      }
      projects := FilterOutId(projects, selectedId);
      selectedId := "";
      return Done;
    }

    /** `pullRehabFromRehabCalc` over the RehabCalc store, whose keys in
        `Object.keys` order are `keyOrder`: write the recomputed total of the
        chosen record into the rehab field and remember its key. The text
        written reads back as the total whenever the total has at most
        `FractionDigitLimit` decimals (`ToNumberOfNumberToString`). */
    method PullRehab(store: map<string, RehabRecord>, keyOrder: seq<string>) returns (o: Outcome)
      requires forall k :: k in keyOrder <==> k in store
      modifies this
      ensures var key := ResolveRehabKey(old(rehabPick), old(address), keyOrder);
        && (key.None? ==> o == Alert("No RehabCalc project selected or matching address.") && unchanged(this))
        && (key.Some? && key.value !in store ==> o == Alert("Saved RehabCalc project not found.") && unchanged(this))
        && (key.Some? && key.value in store ==>
            var total := ComputeRehabTotalFromRecord(Some(store[key.value]));
            && o == Done
            && rehab == NumberToString(total) && rehabFrom == key.value
            && arv == old(arv) && address == old(address) && projects == old(projects)
            && selectedId == old(selectedId) && rehabSavedKeys == old(rehabSavedKeys) && rehabPick == old(rehabPick))
    {
      var key := ResolveRehabKey(rehabPick, address, keyOrder);
      if key.None? {
        return Alert("No RehabCalc project selected or matching address.");
      }
      if key.value !in store {
        return Alert("Saved RehabCalc project not found.");
      }
      var total := ComputeRehabTotalFromRecord(Some(store[key.value]));
      rehab := NumberToString(total);
      rehabFrom := key.value;
      return Done;
    }
  }
}
