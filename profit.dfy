/** ProfitCalc: the cost, profit and margin figures of a flip, a list of saved
    deals, and the pulls of the ARV from Max Offer and of the rehab cost from
    RehabCalc. */
module Profit {
  import opened Results
  import opened JsText
  import opened JsNumber
  import opened Rehab
  import opened MaxOffer
  import opened JsArray

  // ---------------------------------------------------------------------------
  // The figures

  /** The text fields of the form other than the address. */
  datatype Deal = Deal(
    arv: string, purchase: string, rehab: string,
    closingBuy: string, closingSell: string, contingencyPct: string, carryMonths: string,
    utilitiesMonthly: string, taxesMonthly: string,
    rateAPR: string, points: string, ltvPct: string, loanAmountInput: string,
    numDraws: string, drawAmount: string)

  /** The fields of a fresh form. */
  const DefaultDeal: Deal := Deal("", "", "", "2", "6", "10", "4", "0", "0", "12", "2", "85", "", "0", "0")

  /** The fields as numbers. */
  datatype Inputs = Inputs(
    arv: real, purchase: real, rehab: real,
    closingBuyPct: real, closingSellPct: real, contingencyPct: real, carryMonths: real,
    utilitiesMonthly: real, taxesMonthly: real,
    rateAPR: real, pointsPct: real, ltvPct: real, manualLoan: real,
    numDraws: real, drawAmount: real)

  /** Every field through ProfitCalc's `toNumber`. */
  function Parse(d: Deal): Inputs {
    Inputs(
      ToNumberProfit(Some(d.arv)), ToNumberProfit(Some(d.purchase)), ToNumberProfit(Some(d.rehab)),
      ToNumberProfit(Some(d.closingBuy)), ToNumberProfit(Some(d.closingSell)),
      ToNumberProfit(Some(d.contingencyPct)), ToNumberProfit(Some(d.carryMonths)),
      ToNumberProfit(Some(d.utilitiesMonthly)), ToNumberProfit(Some(d.taxesMonthly)),
      ToNumberProfit(Some(d.rateAPR)), ToNumberProfit(Some(d.points)), ToNumberProfit(Some(d.ltvPct)),
      ToNumberProfit(Some(d.loanAmountInput)),
      ToNumberProfit(Some(d.numDraws)), ToNumberProfit(Some(d.drawAmount)))
  }

  /** What the `calc` block returns. */
  datatype Figures = Figures(
    arvNum: real, purchaseNum: real, rehabNum: real,
    closingBuyNum: real, closingSellNum: real, contingencyNum: real,
    pointsCost: real, interestCost: real, drawFees: real, utilitiesCost: real, taxesCost: real,
    effectiveLoan: real, derivedMonthlyInterest: real,
    totalCosts: real, grossProfit: real, netProfit: real, margin: real, netMargin: real)

  /** The loan the LTV allows on the purchase price. */
  function LtvLoan(i: Inputs): real {
    i.purchase * (i.ltvPct / 100.0)
  }

  /** The loan: the manual amount when it is positive, else the LTV loan. */
  function LoanAmount(i: Inputs): real {
    if i.manualLoan > 0.0 then i.manualLoan else LtvLoan(i)
  }

  /** The `calc` block on numbers. */
  function Compute(i: Inputs): (f: Figures)
    ensures f.totalCosts + f.grossProfit == i.arv
    ensures f.netProfit == f.grossProfit - (f.pointsCost + f.interestCost + f.drawFees + f.utilitiesCost + f.taxesCost)
  {
    var closingBuyNum := (i.closingBuyPct / 100.0) * i.purchase;
    var closingSellNum := (i.closingSellPct / 100.0) * i.arv;
    var contingencyNum := (i.contingencyPct / 100.0) * i.rehab;
    var loan := LoanAmount(i);
    var pointsCost := (i.pointsPct / 100.0) * loan;
    var monthlyRate := i.rateAPR / 100.0 / 12.0;
    var monthlyInterest := loan * monthlyRate;
    var interestCost := monthlyInterest * i.carryMonths;
    var drawFees := i.numDraws * i.drawAmount;
    var utilitiesCost := i.utilitiesMonthly * i.carryMonths;
    var taxesCost := i.taxesMonthly * i.carryMonths;
    var totalCosts := i.purchase + i.rehab + closingBuyNum + closingSellNum + contingencyNum;
    var financingCarry := pointsCost + interestCost + drawFees + utilitiesCost + taxesCost;
    var grossProfit := i.arv - totalCosts;
    var netProfit := grossProfit - financingCarry;
    Figures(
      i.arv, i.purchase, i.rehab,
      closingBuyNum, closingSellNum, contingencyNum,
      pointsCost, interestCost, drawFees, utilitiesCost, taxesCost,
      loan, monthlyInterest,
      totalCosts, grossProfit, netProfit,
      if i.arv > 0.0 then grossProfit / i.arv else 0.0,
      if i.arv > 0.0 then netProfit / i.arv else 0.0)
  }

  /** The figures the page shows for its fields. */
  function Calc(d: Deal): Figures {
    Compute(Parse(d))
  }

  /** A positive manual loan amount overrides the LTV loan; zero or a
      negative amount does not. */
  lemma LoanOverride(i: Inputs)
    ensures i.manualLoan > 0.0 ==> Compute(i).effectiveLoan == i.manualLoan
    ensures i.manualLoan <= 0.0 ==> Compute(i).effectiveLoan == i.purchase * (i.ltvPct / 100.0)
    ensures LtvLoan(i) == i.purchase * i.ltvPct / 100.0
  {
  }

  /** An empty loan field reads as 0, so the LTV loan applies. */
  lemma EmptyLoanUsesLtv(d: Deal)
    requires d.loanAmountInput == ""
    ensures Parse(d).manualLoan == 0.0
    ensures Calc(d).effectiveLoan == LtvLoan(Parse(d))
  {
    var i := Parse(d);
    assert i.manualLoan == 0.0;
    assert Calc(d) == Compute(i);
  }

  /** Every line the page shows is its input, or its percentage of the base
      it applies to; the base costs are purchase, rehab and the three
      percentages, without financing or carry; points are a percentage of the loan, interest
      accrues monthly on the loan, draw fees are charged per draw, and
      utilities and taxes are monthly amounts over the carry months. */
  lemma ProfitBreakdown(i: Inputs)
    ensures var f := Compute(i);
      && f.arvNum == i.arv && f.purchaseNum == i.purchase && f.rehabNum == i.rehab
      && f.closingBuyNum == i.closingBuyPct / 100.0 * i.purchase
      && f.closingSellNum == i.closingSellPct / 100.0 * i.arv
      && f.contingencyNum == i.contingencyPct / 100.0 * i.rehab
      && f.derivedMonthlyInterest == f.effectiveLoan * (i.rateAPR / 1200.0)
      && f.totalCosts == f.purchaseNum + f.rehabNum + f.closingBuyNum + f.closingSellNum + f.contingencyNum
      && f.interestCost == f.derivedMonthlyInterest * i.carryMonths
      && f.totalCosts == i.purchase + i.rehab + i.closingBuyPct / 100.0 * i.purchase
                         + i.closingSellPct / 100.0 * i.arv + i.contingencyPct / 100.0 * i.rehab
      && f.pointsCost == i.pointsPct / 100.0 * f.effectiveLoan
      && f.interestCost == f.effectiveLoan * (i.rateAPR / 1200.0) * i.carryMonths
      && f.drawFees == i.numDraws * i.drawAmount
      && f.utilitiesCost == i.utilitiesMonthly * i.carryMonths
      && f.taxesCost == i.taxesMonthly * i.carryMonths
      && f.utilitiesCost + f.taxesCost == (i.utilitiesMonthly + i.taxesMonthly) * i.carryMonths
  {
  }

  /** The margins are the profits as a share of a positive ARV, and exactly 0
      otherwise. */
  lemma Margins(i: Inputs)
    ensures var f := Compute(i);
      && (i.arv > 0.0 ==> f.margin * i.arv == f.grossProfit && f.netMargin * i.arv == f.netProfit)
      && (i.arv <= 0.0 ==> f.margin == 0.0 && f.netMargin == 0.0)
  {
  }

  /** With non-negative financing inputs, financing and carry only lower the
      profit. */
  lemma NetAtMostGross(i: Inputs)
    requires i.pointsPct >= 0.0 && i.rateAPR >= 0.0 && i.carryMonths >= 0.0
    requires i.numDraws >= 0.0 && i.drawAmount >= 0.0 && i.utilitiesMonthly >= 0.0 && i.taxesMonthly >= 0.0
    requires i.manualLoan > 0.0 || (i.purchase >= 0.0 && i.ltvPct >= 0.0)
    ensures Compute(i).netProfit <= Compute(i).grossProfit
  {
    var f := Compute(i);
    var loan := LoanAmount(i);
    assert loan >= 0.0 by {
      if i.manualLoan <= 0.0 { NonNegProduct(i.purchase, i.ltvPct / 100.0); }
    }
    NonNegProduct(i.pointsPct / 100.0, loan);
    NonNegProduct(loan, i.rateAPR / 100.0 / 12.0);
    NonNegProduct(loan * (i.rateAPR / 100.0 / 12.0), i.carryMonths);
    NonNegProduct(i.numDraws, i.drawAmount);
    NonNegProduct(i.utilitiesMonthly, i.carryMonths);
    NonNegProduct(i.taxesMonthly, i.carryMonths);
  }

  /** A product of two non-negative amounts is non-negative; used once per
      financing term in NetAtMostGross. */
  lemma NonNegProduct(a: real, b: real)
    requires a >= 0.0 && b >= 0.0
    ensures a * b >= 0.0
  {
  }

  /** ARV 350000, purchase 220000, rehab 45000 with the default percentages
      and no draws, utilities or taxes: base costs 294900, gross profit 55100,
      loan 187000, financing and carry 11220, net profit 43880. */
  lemma FiguresExample()
    ensures var f := Compute(Inputs(350000.0, 220000.0, 45000.0, 2.0, 6.0, 10.0, 4.0, 0.0, 0.0, 12.0, 2.0, 85.0, 0.0, 0.0, 0.0));
      && f.closingBuyNum == 4400.0 && f.closingSellNum == 21000.0 && f.contingencyNum == 4500.0
      && f.totalCosts == 294900.0 && f.grossProfit == 55100.0
      && f.effectiveLoan == 187000.0 && f.pointsCost == 3740.0
      && f.derivedMonthlyInterest == 1870.0 && f.interestCost == 7480.0
      && f.netProfit == 43880.0
  {
  }

  // ---------------------------------------------------------------------------
  // Saved deals

  /** A saved deal. */
  datatype ProfitProject = ProfitProject(id: int, address: string, deal: Deal)

  /** `x || fallback` for a text field. */
  function Or(x: string, fallback: string): (r: string)
    ensures r == x || r == fallback
    ensures r == "" ==> x == "" && fallback == ""
  {
    if x == "" then fallback else x
  }

  /** `handleLoad`'s field defaults: every empty field takes its fresh-form value. */
  function WithDefaults(d: Deal): Deal {
    Deal(
      Or(d.arv, DefaultDeal.arv), Or(d.purchase, DefaultDeal.purchase), Or(d.rehab, DefaultDeal.rehab),
      Or(d.closingBuy, DefaultDeal.closingBuy), Or(d.closingSell, DefaultDeal.closingSell),
      Or(d.contingencyPct, DefaultDeal.contingencyPct), Or(d.carryMonths, DefaultDeal.carryMonths),
      Or(d.utilitiesMonthly, DefaultDeal.utilitiesMonthly), Or(d.taxesMonthly, DefaultDeal.taxesMonthly),
      Or(d.rateAPR, DefaultDeal.rateAPR), Or(d.points, DefaultDeal.points), Or(d.ltvPct, DefaultDeal.ltvPct),
      Or(d.loanAmountInput, DefaultDeal.loanAmountInput),
      Or(d.numDraws, DefaultDeal.numDraws), Or(d.drawAmount, DefaultDeal.drawAmount))
  }

  /** None of the fields with a non-empty default is empty. */
  predicate NoBlankDefaulted(d: Deal) {
    && d.closingBuy != "" && d.closingSell != "" && d.contingencyPct != "" && d.carryMonths != ""
    && d.utilitiesMonthly != "" && d.taxesMonthly != "" && d.rateAPR != "" && d.points != ""
    && d.ltvPct != "" && d.numDraws != "" && d.drawAmount != ""
  }

  /** A saved deal loads back unchanged exactly when none of the fields with a
      non-empty default was left empty; whatever was saved, loading twice is
      loading once, and a fresh form loads as itself. */
  lemma LoadRoundTrip(d: Deal)
    ensures WithDefaults(d) == d <==> NoBlankDefaulted(d)
    ensures WithDefaults(WithDefaults(d)) == WithDefaults(d)
    ensures WithDefaults(DefaultDeal) == DefaultDeal
  {
  }

  /** `p.id === id` for a number id; a falsy id (null or 0) means none. */
  predicate Truthy(sel: Option<int>) {
    sel.Some? && sel.value != 0
  }

  /** `projects.map((p) => (p.id === id ? entry : p))`. */
  function ReplaceById(list: seq<ProfitProject>, id: int, entry: ProfitProject): (r: seq<ProfitProject>)
    ensures |r| == |list|
    ensures forall k :: 0 <= k < |list| ==> r[k] == (if list[k].id == id then entry else list[k])
  {
    seq(|list|, k requires 0 <= k < |list| => if list[k].id == id then entry else list[k])
  }

  /** `projects.filter((p) => p.id !== id)`: the other entries. */
  function RemoveId(list: seq<ProfitProject>, id: int): (r: seq<ProfitProject>)
    ensures |r| <= |list|
    ensures forall x :: x in r <==> x in list && x.id != id
  {
    FilterMembers(list, (p: ProfitProject) => p.id != id);
    Filter(list, (p: ProfitProject) => p.id != id)
  }

  /** The removal keeps order: removing from a concatenation removes from
      each part in turn, and a single entry stays exactly when its id differs. */
  lemma RemoveIdAppend(a: seq<ProfitProject>, b: seq<ProfitProject>, id: int)
    ensures RemoveId(a + b, id) == RemoveId(a, id) + RemoveId(b, id)
    ensures forall x :: RemoveId([x], id) == if x.id != id then [x] else []
  {
    FilterAppend(a, b, (p: ProfitProject) => p.id != id);
    forall x ensures RemoveId([x], id) == if x.id != id then [x] else [] {
      FilterSingle(x, (p: ProfitProject) => p.id != id);
    }
  }

  /** `projects.find((p) => p.id === id)`. */
  function FindProject(list: seq<ProfitProject>, id: int): (r: Option<ProfitProject>)
    ensures r.Some? ==> r.value.id == id
    ensures r.Some? ==> exists i :: 0 <= i < |list| && list[i] == r.value
                          && forall j :: 0 <= j < i ==> list[j].id != id
    ensures r.None? ==> forall k :: 0 <= k < |list| ==> list[k].id != id
  {
    if list == [] then None
    else if list[0].id == id then Some(list[0])
    else FindProject(list[1..], id)
  }

  /** Some entry has the id. */
  predicate HasId(list: seq<ProfitProject>, id: int) {
    exists k :: 0 <= k < |list| && list[k].id == id
  }

  /** What a save writes is what a load by the same id finds: a re-save
      under the selected id replaces it, a first save under an id not yet in
      use appends it; after a removal the id is gone. */
  lemma SaveThenFind(list: seq<ProfitProject>, entry: ProfitProject)
    ensures HasId(list, entry.id) ==> FindProject(ReplaceById(list, entry.id, entry), entry.id) == Some(entry)
    ensures !HasId(list, entry.id) ==> FindProject(list + [entry], entry.id) == Some(entry)
    ensures FindProject(RemoveId(list, entry.id), entry.id) == None
  {
    if HasId(list, entry.id) {
      ReplaceThenFind(list, entry);
    } else {
      AppendThenFind(list, entry);
    }
  }

  lemma {:induction false} ReplaceThenFind(list: seq<ProfitProject>, entry: ProfitProject)
    requires HasId(list, entry.id)
    ensures FindProject(ReplaceById(list, entry.id, entry), entry.id) == Some(entry)
  {
    var r := ReplaceById(list, entry.id, entry);
    if list[0].id != entry.id {
      assert r[1..] == ReplaceById(list[1..], entry.id, entry);
      var k :| 0 <= k < |list| && list[k].id == entry.id;
      assert list[1..][k - 1].id == entry.id;
      ReplaceThenFind(list[1..], entry);
    }
  }

  lemma {:induction false} AppendThenFind(list: seq<ProfitProject>, entry: ProfitProject)
    requires !HasId(list, entry.id)
    ensures FindProject(list + [entry], entry.id) == Some(entry)
  {
    if list != [] {
      assert (list + [entry])[1..] == list[1..] + [entry];
      forall k | 0 <= k < |list| - 1 ensures list[1..][k].id != entry.id {
        assert list[1..][k] == list[k + 1];
      }
      AppendThenFind(list[1..], entry);
    }
  }

  // ---------------------------------------------------------------------------
  // Pulling from the other calculators

  /** Max Offer's entry for the address: the first whose non-empty address
      equals it after lower-casing, without trimming; the last entry when none
      does. */
  function MatchOrLast(list: seq<OfferProject>, address: string): (r: OfferProject)
    requires list != []
    ensures (exists i :: 0 <= i < |list| && list[i] == r && AddressMatches(list[i], address)
                         && forall j :: 0 <= j < i ==> !AddressMatches(list[j], address))
         || ((forall k :: 0 <= k < |list| ==> !AddressMatches(list[k], address)) && r == list[|list| - 1])
  {
    var m := FirstAddressMatch(list, address);
    if m.Some? then m.value else list[|list| - 1]
  }

  /** `p.address && p.address.toLowerCase() === address.toLowerCase()`. */
  predicate AddressMatches(p: OfferProject, address: string) {
    p.address != "" && Lower(p.address) == Lower(address)
  }

  /** `list.find((p) => p.address && p.address.toLowerCase() === address.toLowerCase())`. */
  function FirstAddressMatch(list: seq<OfferProject>, address: string): (r: Option<OfferProject>)
    ensures r.Some? ==> exists i :: 0 <= i < |list| && list[i] == r.value && AddressMatches(list[i], address)
                          && forall j :: 0 <= j < i ==> !AddressMatches(list[j], address)
    ensures r.None? ==> forall k :: 0 <= k < |list| ==> !AddressMatches(list[k], address)
  {
    if list == [] then None
    else if AddressMatches(list[0], address) then Some(list[0])
    else FirstAddressMatch(list[1..], address)
  }

  /** The rehab field after `pullFromRehabCalc` as written: RehabCalc stores an
      object keyed by address, which has no `length`, so the pull returns
      before touching the field; with nothing stored it alerts. */
  function RehabPullAsWritten(raw: Option<map<string, RehabRecord>>, rehab: string): (r: (Outcome, string))
    ensures r.1 == rehab
    ensures raw.None? <==> r.0 == Alert("No RehabCalc projects found.")
  {
    if raw.None? then (Alert("No RehabCalc projects found."), rehab) else (Ignored, rehab)
  }

  /** The pull the button evidently means, over the same store with its keys
      in `Object.keys` order: the project keyed by the address (compared after
      lower-casing, as for Max Offer entries), else the last one, and its
      recomputed rehab total as text. */
  function RehabPullIntended(store: map<string, RehabRecord>, keyOrder: seq<string>, address: string, rehab: string): (r: string)
    requires forall k :: k in keyOrder <==> k in store
    ensures keyOrder == [] ==> r == rehab
    ensures keyOrder != [] ==> r != ""
  {
    if keyOrder == [] then rehab
    else
      var key := IntendedRehabKey(keyOrder, address);
      NumberToString(ComputeRehabTotalFromRecord(Some(store[key])))
  }

  /** The first key equal to the address after lower-casing, else the last key. */
  function IntendedRehabKey(keyOrder: seq<string>, address: string): (r: string)
    requires keyOrder != []
    ensures (exists i :: 0 <= i < |keyOrder| && keyOrder[i] == r && Lower(r) == Lower(address)
                         && forall j :: 0 <= j < i ==> Lower(keyOrder[j]) != Lower(address))
         || ((forall k :: 0 <= k < |keyOrder| ==> Lower(keyOrder[k]) != Lower(address)) && r == keyOrder[|keyOrder| - 1])
  {
    if Lower(keyOrder[0]) == Lower(address) then keyOrder[0]
    else if |keyOrder| == 1 then keyOrder[0]
    else IntendedRehabKey(keyOrder[1..], address)
  }

  /** The intended pull writes text that ProfitCalc's `toNumber` reads back as
      the chosen project's rehab total (for totals with at most
      `FractionDigitLimit` decimals). */
  lemma RehabPullIntendedReadsBack(store: map<string, RehabRecord>, keyOrder: seq<string>, address: string, rehab: string)
    requires forall k :: k in keyOrder <==> k in store
    requires keyOrder != []
    requires HasDecimals(ComputeRehabTotalFromRecord(Some(store[IntendedRehabKey(keyOrder, address)])), FractionDigitLimit)
    ensures ToNumberProfit(Some(RehabPullIntended(store, keyOrder, address, rehab)))
         == ComputeRehabTotalFromRecord(Some(store[IntendedRehabKey(keyOrder, address)]))
  {
    var total := ComputeRehabTotalFromRecord(Some(store[IntendedRehabKey(keyOrder, address)]));
    ToNumberOfNumberToString(total);
    ToNumberVariantsAgree(Some(NumberToString(total)));
  }

  /** With one RehabCalc project saved under the current address and an empty
      rehab field, the pull as written leaves the field empty while the
      intended pull fills it in. */
  lemma RehabPullDiscrepancy()
    ensures var store := map["12 Main St" := Snapshot(DefaultItems, 1000.0, "mid")];
      && RehabPullAsWritten(Some(store), "").1 == ""
      && RehabPullIntended(store, ["12 Main St"], "12 Main St", "") != ""
  {
    var store := map["12 Main St" := Snapshot(DefaultItems, 1000.0, "mid")];
    var total := ComputeRehabTotalFromRecord(Some(store["12 Main St"]));
    var n := NumberNumeral(total);
    assert NumberToString(total) == Spell(n);
    assert |Spell(n)| >= |n.whole| > 0;
  }

  /** The three address rules differ: for " 12 Main St " and the stored key
      "12 main st", RehabCalc's exact trimmed key misses, Max Offer's trimmed
      lower-cased comparison matches, and ProfitCalc's lower-cased comparison
      without trimming misses. */
  lemma AddressRulesDiffer()
    ensures Trim(" 12 Main St ") != "12 main st"
    ensures Norm(" 12 Main St ") == Norm("12 main st")
    ensures Lower(" 12 Main St ") != Lower("12 main st")
  {
    var a := " 12 Main St ";
    assert TrimStart(a) == "12 Main St " by {
      assert a[1..] == "12 Main St ";
    }
    assert TrimEnd("12 Main St ") == "12 Main St" by {
      assert "12 Main St "[..10] == "12 Main St";
    }
    assert TrimStart("12 main st") == "12 main st";
    assert TrimEnd("12 main st") == "12 main st";
    assert Trim(a)[3] == 'M';
    assert Lower("12 Main St") == "12 main st";
    assert |Lower(a)| == 12;
  }

  // ---------------------------------------------------------------------------
  // The page

  /** The ProfitCalc page: the address, the deal fields, the saved deals and
      the selected id. */
  class ProfitCalc {
    var address: string
    var deal: Deal
    var projects: seq<ProfitProject>
    var selectedId: Option<int>

    /** A truthy selection names a saved deal. */
    ghost predicate Valid()
      reads this
    {
      Truthy(selectedId) ==> HasId(projects, selectedId.value)
    }

    function CurrentFigures(): Figures
      reads this
    {
      Calc(deal)
    }

    /** A fresh form over the saved deals. */
    constructor (persisted: seq<ProfitProject>)
      ensures Valid()
      ensures address == "" && deal == DefaultDeal && projects == persisted && selectedId == None
    {
      address := "";
      deal := DefaultDeal;
      projects := persisted;
      selectedId := None;
    }

    method SetAddress(a: string)
      requires Valid()
      modifies this
      ensures Valid()
      ensures address == a && deal == old(deal) && projects == old(projects) && selectedId == old(selectedId)
    {
      address := a;
    }

    /** Any of the text fields. */
    method SetDeal(d: Deal)
      requires Valid()
      modifies this
      ensures Valid()
      ensures deal == d && address == old(address) && projects == old(projects) && selectedId == old(selectedId)
    {
      deal := d;
    }

    /** `handleSave`: with a selection, replace the entries with the selected
        id; otherwise append a new entry under `freshId` and select it. An
        empty address (not trimmed) does nothing. */
    method HandleSave(freshId: int) returns (o: Outcome)
      requires Valid()
      modifies this
      ensures Valid()
      ensures old(address) == "" ==> o == Ignored && unchanged(this)
      ensures old(address) != "" && Truthy(old(selectedId)) ==>
        && o == Done
        && projects == ReplaceById(old(projects), old(selectedId).value, ProfitProject(old(selectedId).value, old(address), old(deal)))
        && |projects| == |old(projects)|
        && selectedId == old(selectedId)
      ensures old(address) != "" && !Truthy(old(selectedId)) ==>
        && o == Done
        && projects == old(projects) + [ProfitProject(freshId, old(address), old(deal))]
        && selectedId == Some(freshId)
      ensures address == old(address) && deal == old(deal)
    {
      if address == "" {
        return Ignored;
      }
      var truthy := selectedId.Some? && selectedId.value != 0;
      var entry := ProfitProject(if truthy then selectedId.value else freshId, address, deal);
      if truthy {
        var k :| 0 <= k < |projects| && projects[k].id == selectedId.value;
        projects := ReplaceById(projects, selectedId.value, entry);
        assert projects[k].id == selectedId.value;
      } else {
        projects := projects + [entry];
        selectedId := Some(entry.id);
        assert projects[|projects| - 1].id == entry.id;
      }
      return Done;
    }

    /** `handleLoad(id)`: select the deal with that id and load its fields,
        each empty one as its fresh-form value; an unknown id does nothing. */
    method HandleLoad(id: int) returns (o: Outcome)
      requires Valid()
      modifies this
      ensures Valid()
      ensures FindProject(old(projects), id).None? ==> o == Ignored && unchanged(this)
      ensures FindProject(old(projects), id).Some? ==>
        var p := FindProject(old(projects), id).value;
        && o == Done
        && selectedId == Some(id) && address == p.address && deal == WithDefaults(p.deal)
        && projects == old(projects)
    {
      var found := FindProject(projects, id);
      if found.None? {
        return Ignored;
      }
      var p := found.value;
      selectedId := Some(p.id);
      address := Or(p.address, "");
      deal := WithDefaults(p.deal);
      assert HasId(projects, p.id) by {
        var k :| 0 <= k < |projects| && projects[k] == p;
      }
      return Done;
    }

    /** `handleRemove`: drop the selected deal and reset the whole form;
        without a selection it does nothing. */
    method HandleRemove() returns (o: Outcome)
      requires Valid()
      modifies this
      ensures Valid()
      ensures !Truthy(old(selectedId)) ==> o == Ignored && unchanged(this)
      ensures Truthy(old(selectedId)) ==>
        && o == Done
        && projects == RemoveId(old(projects), old(selectedId).value)
        && selectedId == None && address == "" && deal == DefaultDeal
    {
      if !(selectedId.Some? && selectedId.value != 0) {
        return Ignored;
      }
      projects := RemoveId(projects, selectedId.value);
      selectedId := None;
      address := "";
      deal := DefaultDeal;
      return Done;
    }

    /** `pullFromMaxOffer` over Max Offer's saved list (None when nothing is
        stored): the ARV of the entry for the address, or of the last entry. */
    method PullFromMaxOffer(raw: Option<seq<OfferProject>>) returns (o: Outcome)
      requires Valid()
      modifies this
      ensures Valid()
      ensures raw.None? ==> o == Alert("No Max Offer projects found.") && unchanged(this)
      ensures raw == Some([]) ==> o == Ignored && unchanged(this)
      ensures raw.Some? && raw.value != [] ==>
        && o == Done
        && deal == old(deal).(arv := Or(MatchOrLast(raw.value, old(address)).arv, ""))
        && address == old(address) && projects == old(projects) && selectedId == old(selectedId)
    {
      if raw.None? {
        return Alert("No Max Offer projects found.");
      }
      var list := raw.value;
      if list == [] {
        return Ignored;
      }
      var m := MatchOrLast(list, address);
      deal := deal.(arv := Or(m.arv, ""));
      return Done;
    }

    /** `pullFromRehabCalc` as written, over RehabCalc's store (None when
        nothing is stored): it never changes the form. */
    method PullFromRehabCalc(raw: Option<map<string, RehabRecord>>) returns (o: Outcome)
      requires Valid()
      modifies this
      ensures Valid()
      ensures o == RehabPullAsWritten(raw, old(deal).rehab).0
      ensures deal.rehab == RehabPullAsWritten(raw, old(deal).rehab).1
      ensures unchanged(this)
    {
      var r := RehabPullAsWritten(raw, deal.rehab);
      o := r.0;
      deal := deal.(rehab := r.1);
    }
  }
}
