/**
 * What one financing run does to the invoice table, end to end: the query of either mode,
 * followed by the service's reconciliation, over one scan of the table.
 */
module FinancingProperties {
  import opened Wrappers
  import opened Entities
  import opened Pricing
  import opened OfferGroups
  import opened InvoiceRepository
  import opened OfferSelection
  import opened FinancingService

  /** The financing an invoice gets from offer `t` when its purchaser is found. */
  function FinancingOf(t: InvoiceTuple): Financing {
    Financing(Some(t.purchaserId), t.earlyPaymentAmount, t.financingRate, t.daysToFinance)
  }

  /**
   * `after` is what a run makes of `before`: an invoice with no eligible offer is left as it is;
   * otherwise it is financed, and nothing else about it changes, by one of its eligible offers
   * with the largest early-payment amount.
   */
  ghost predicate FinancedWithBestOffer(today: int, md: MasterData, before: Invoice, after: Invoice) {
    FinancedWithBestOf(OffersOf(today, md, before), before, after)
  }

  /** `after` is `before`, financed by one of the offers of `offers` with the largest amount, if there are any. */
  ghost predicate FinancedWithBestOf(offers: seq<InvoiceTuple>, before: Invoice, after: Invoice) {
    match MaxAmount(offers)
    case None => after == before
    case Some(m) =>
      exists t :: t in offers && t.earlyPaymentAmount == m && after == before.(financing := Some(FinancingOf(t)))
  }

  /**
   * Reconciling picks that name the same invoices as the offers `all`, each with its invoice's
   * largest amount, finances an invoice with one of its own best offers.
   */
  lemma ReconcileMaximalPicks(invoices: map<InvoiceId, Invoice>, purchasers: map<PurchaserId, Purchaser>,
                              all: seq<InvoiceTuple>, picks: seq<InvoiceTuple>, id: InvoiceId)
    requires id in invoices
    requires InvoiceIds(picks) == InvoiceIds(all)
    requires forall t :: t in picks ==> t in all && MaxAmount(Group(all, t.invoiceId)) == Some(t.earlyPaymentAmount)
    requires forall t :: t in Group(all, id) ==> t.purchaserId in purchasers
    ensures id in Reconcile(invoices, purchasers, picks)
    ensures FinancedWithBestOf(Group(all, id), invoices[id], Reconcile(invoices, purchasers, picks)[id])
  {
    ReconcileIsLastWins(invoices, purchasers, picks);
    match LastFor(picks, id)
    case None =>
      assert Group(all, id) == [];
    case Some(t) =>
      var j :| LastForInvoiceAt(picks, j, id) && picks[j] == t;
      assert t in picks;
      assert t in Group(all, id);
      assert FinancingFor(t, purchasers) == FinancingOf(t);
  }

  /** Either mode selects offers for the same invoices, each with its invoice's largest amount. */
  lemma PicksAreMaxima(mode: QueryMode, today: int, md: MasterData, scanned: seq<Invoice>)
    ensures var all := FindNotFinancedForAllPurchasers(today, md, scanned);
            var picks := InvoicesToFinance(mode, today, md, scanned);
            && InvoiceIds(picks) == InvoiceIds(all)
            && forall t :: t in picks ==> t in all && MaxAmount(Group(all, t.invoiceId)) == Some(t.earlyPaymentAmount)
  {
    var all := FindNotFinancedForAllPurchasers(today, md, scanned);
    match mode
    case QueryForAll =>
      SelectBestPerInvoiceIds(all);
      forall t | t in SelectBestPerInvoice(all)
        ensures t in all && MaxAmount(Group(all, t.invoiceId)) == Some(t.earlyPaymentAmount)
      {
        SelectBestPerInvoiceIsMaximum(all, t);
      }
    case QueryForLowestRate =>
      LowestRateCoversSameInvoices(today, md, scanned);
  }

  /** The outcome for the one invoice `scanned[k]`. */
  lemma InvoiceOutcome(mode: QueryMode, today: int, md: MasterData, invoices: map<InvoiceId, Invoice>,
                       scanned: seq<Invoice>, k: nat)
    requires Keyed(invoices) && IsTableScan(scanned, invoices) && k < |scanned|
    ensures var after := Reconcile(invoices, md.purchasers, InvoicesToFinance(mode, today, md, scanned));
            scanned[k].id in after && FinancedWithBestOffer(today, md, scanned[k], after[scanned[k].id])
  {
    var all := FindNotFinancedForAllPurchasers(today, md, scanned);
    var picks := InvoicesToFinance(mode, today, md, scanned);
    var inv := scanned[k];
    PicksAreMaxima(mode, today, md, scanned);
    GroupOfAllPurchasers(today, md, scanned, k);
    OffersOfInvoice(today, md, inv);
    assert invoices[inv.id] == inv;
    ReconcileMaximalPicks(invoices, md.purchasers, all, picks, inv.id);
  }

  /**
   * One run over a scan of the table keeps the set of invoices and gives each invoice the
   * outcome `FinancedWithBestOffer` describes, in either mode.
   */
  lemma FinanceOutcome(mode: QueryMode, today: int, md: MasterData, invoices: map<InvoiceId, Invoice>,
                       scanned: seq<Invoice>)
    requires Keyed(invoices) && IsTableScan(scanned, invoices)
    ensures var after := Reconcile(invoices, md.purchasers, InvoicesToFinance(mode, today, md, scanned));
            && after.Keys == invoices.Keys
            && forall id :: id in invoices ==> FinancedWithBestOffer(today, md, invoices[id], after[id])
  {
    var after := Reconcile(invoices, md.purchasers, InvoicesToFinance(mode, today, md, scanned));
    ReconcileIsLastWins(invoices, md.purchasers, InvoicesToFinance(mode, today, md, scanned));
    forall id | id in invoices
      ensures FinancedWithBestOffer(today, md, invoices[id], after[id])
    {
      var k :| 0 <= k < |scanned| && scanned[k] == invoices[id];
      InvoiceOutcome(mode, today, md, invoices, scanned, k);
    }
  }

  /**
   * A run finances an invoice with the largest early-payment amount any eligible purchaser
   * offers, over the invoice's own term; an invoice that was already financed keeps its financing.
   */
  lemma FinancedInvoiceTerms(mode: QueryMode, today: int, md: MasterData, invoices: map<InvoiceId, Invoice>,
                             scanned: seq<Invoice>, id: InvoiceId)
    requires Keyed(invoices) && IsTableScan(scanned, invoices) && id in invoices
    ensures var after := Reconcile(invoices, md.purchasers, InvoicesToFinance(mode, today, md, scanned));
            var offers := OffersOf(today, md, invoices[id]);
            && id in after
            && (invoices[id].financing.Some? ==> after[id] == invoices[id])
            && (offers == [] ==> after[id] == invoices[id])
            && (offers != [] ==>
                  && after[id].financing.Some?
                  && after[id].financing.value.purchaser.Some?
                  && after[id].financing.value.daysToFinance == DaysToFinance(today, invoices[id].maturityDay)
                  && (forall u :: u in offers ==> u.earlyPaymentAmount <= after[id].financing.value.earlyPaymentAmountInCents)
                  && exists u :: u in offers && u.earlyPaymentAmount == after[id].financing.value.earlyPaymentAmountInCents)
  {
    FinanceOutcome(mode, today, md, invoices, scanned);
    OffersOfInvoice(today, md, invoices[id]);
  }

  /** Everything about two invoices but their financing is equal, and so is whether, for how much and for how long each is financed. */
  ghost predicate SameFinancingTerms(a: Invoice, b: Invoice) {
    && a.(financing := None) == b.(financing := None)
    && (a.financing.Some? <==> b.financing.Some?)
    && (a.financing.Some? ==>
          && a.financing.value.earlyPaymentAmountInCents == b.financing.value.earlyPaymentAmountInCents
          && a.financing.value.daysToFinance == b.financing.value.daysToFinance)
  }

  /**
   * The two modes, over any two scans of the table, finance the same invoices for the same
   * amounts and terms. They need not agree on the purchaser: `TiedOffersPickDifferentPurchasers`
   * shows an invoice the two modes finance with different purchasers.
   */
  lemma ModesAgree(mode1: QueryMode, mode2: QueryMode, today: int, md: MasterData,
                   invoices: map<InvoiceId, Invoice>, scan1: seq<Invoice>, scan2: seq<Invoice>)
    requires Keyed(invoices) && IsTableScan(scan1, invoices) && IsTableScan(scan2, invoices)
    ensures var a := Reconcile(invoices, md.purchasers, InvoicesToFinance(mode1, today, md, scan1));
            var b := Reconcile(invoices, md.purchasers, InvoicesToFinance(mode2, today, md, scan2));
            && a.Keys == b.Keys
            && forall id :: id in a ==> SameFinancingTerms(a[id], b[id])
  {
    var a := Reconcile(invoices, md.purchasers, InvoicesToFinance(mode1, today, md, scan1));
    var b := Reconcile(invoices, md.purchasers, InvoicesToFinance(mode2, today, md, scan2));
    FinanceOutcome(mode1, today, md, invoices, scan1);
    FinanceOutcome(mode2, today, md, invoices, scan2);
    forall id | id in a ensures SameFinancingTerms(a[id], b[id]) {
      OffersOfInvoice(today, md, invoices[id]);
      BestOffersAgree(OffersOf(today, md, invoices[id]), invoices[id], a[id], b[id]);
    }
  }

  /** Two outcomes financed from the same offers of one term agree on everything but the purchaser and the rate. */
  lemma BestOffersAgree(offers: seq<InvoiceTuple>, before: Invoice, x: Invoice, y: Invoice)
    requires FinancedWithBestOf(offers, before, x) && FinancedWithBestOf(offers, before, y)
    requires forall t, u :: t in offers && u in offers ==> t.daysToFinance == u.daysToFinance
    ensures SameFinancingTerms(x, y)
  {
  }

  /**
   * The modes agree on amounts and terms but not on the purchaser when offers tie. One invoice
   * of 1,000,000 cents due in 30 days, one settings row at 240 bps a year linking purchasers 1
   * and 2, both offering 998,000 cents: the all-purchasers mode keeps the first tied offer and
   * finances the invoice with purchaser 1; the lowest-rate query returns both rows, and the
   * later one, purchaser 2, wins the reconciliation.
   */
  lemma TiedOffersPickDifferentPurchasers(inv: Invoice, md: MasterData)
    requires inv == Invoice(1, 1, None, None, 30, 1000000)
    requires md == MasterData(map[1 := Creditor(1, 100)], [FinancingSettings(1, 1, 240, [1, 2])],
                              map[1 := Purchaser(1, 0), 2 := Purchaser(2, 0)])
    ensures var all := Reconcile(map[1 := inv], md.purchasers, InvoicesToFinance(QueryForAll, 0, md, [inv]));
            var lowest := Reconcile(map[1 := inv], md.purchasers, InvoicesToFinance(QueryForLowestRate, 0, md, [inv]));
            && 1 in all && 1 in lowest
            && all[1].financing == Some(Financing(Some(1), 998000, 20.0, 30))
            && lowest[1].financing == Some(Financing(Some(2), 998000, 20.0, 30))
  {
    var t1 := InvoiceTuple(1, 1, 30, 20.0, 998000);
    var t2 := InvoiceTuple(1, 2, 30, 20.0, 998000);
    TiedScenarioOffers(inv, md);
    TiedPairSelection(t1, t2);
    TiedPairReconciliation(map[1 := inv], md.purchasers, t1, t2);
  }

  /** In the tied scenario the all-purchasers query returns purchaser 1's offer, then purchaser 2's. */
  lemma TiedScenarioOffers(inv: Invoice, md: MasterData)
    requires inv == Invoice(1, 1, None, None, 30, 1000000)
    requires md == MasterData(map[1 := Creditor(1, 100)], [FinancingSettings(1, 1, 240, [1, 2])],
                              map[1 := Purchaser(1, 0), 2 := Purchaser(2, 0)])
    ensures FindNotFinancedForAllPurchasers(0, md, [inv])
            == [InvoiceTuple(1, 1, 30, 20.0, 998000), InvoiceTuple(1, 2, 30, 20.0, 998000)]
  {
    ConcreteScenario();
    var c := md.creditors[1];
    var s := md.settings[0];
    var r1 := JoinRow(0, inv, c, s, 1, md.purchasers[1]);
    var r2 := JoinRow(0, inv, c, s, 2, md.purchasers[2]);
    assert [1, 2][1..] == [2];
    assert JoinPurchasers(0, md, inv, c, s, [2]) == [r2];
    assert JoinPurchasers(0, md, inv, c, s, [1, 2]) == [r1, r2];
    assert JoinedRows(0, md, [inv]) == [r1, r2] by {
      assert md.settings[1..] == [];
      assert JoinSettings(0, md, inv, c, md.settings) == [r1, r2];
      assert JoinedRowsOf(0, md, inv) == [r1, r2];
      assert [inv][1..] == [];
    }
    assert [r1, r2][1..] == [r2];
    assert EligibleTuples([r2]) == [InvoiceTuple(1, 2, 30, 20.0, 998000)];
  }

  /** Two tied offers for one invoice: the lowest-rate filter keeps both, the in-memory reduction only the first. */
  lemma TiedPairSelection(t1: InvoiceTuple, t2: InvoiceTuple)
    requires t1.invoiceId == t2.invoiceId && t1.earlyPaymentAmount == t2.earlyPaymentAmount
    ensures KeepInvoiceMaxima([t1, t2], [t1, t2]) == [t1, t2]
    ensures SelectBestPerInvoice([t1, t2]) == [t1]
  {
    var offers := [t1, t2];
    var id := t1.invoiceId;
    GroupOfOneInvoice(offers, id);
    assert offers[1..] == [t2];
    assert MaxAmount([t2]) == Some(t2.earlyPaymentAmount);
    assert MaxAmount(offers) == Some(t1.earlyPaymentAmount);
    assert KeepInvoiceMaxima([t2], offers) == [t2];
    assert offers[..1] == [t1];
    assert [t1][..0] == [];
    assert GroupKeys([t1]) == [id];
    assert GroupKeys(offers) == [id];
    assert BestOfGroup(Group(offers, id)) == Some(t1);
    assert [id][1..] == [];
    assert BestOfGroups(offers, [id]) == [t1] + BestOfGroups(offers, []);
  }

  /** Reconciling two offers for one stored invoice: one alone gives its own financing, both give the later one's. */
  lemma TiedPairReconciliation(invoices: map<InvoiceId, Invoice>, purchasers: map<PurchaserId, Purchaser>,
                               t1: InvoiceTuple, t2: InvoiceTuple)
    requires t1.invoiceId == t2.invoiceId && t1.invoiceId in invoices
    ensures var one := Reconcile(invoices, purchasers, [t1]);
            t1.invoiceId in one && one[t1.invoiceId].financing == Some(FinancingFor(t1, purchasers))
    ensures var both := Reconcile(invoices, purchasers, [t1, t2]);
            t1.invoiceId in both && both[t1.invoiceId].financing == Some(FinancingFor(t2, purchasers))
  {
    assert [t1][..0] == [];
    assert [t1, t2][..1] == [t1];
  }

  /** A second run right after a first one changes nothing: every invoice it could finance is financed. */
  lemma RerunChangesNothing(mode1: QueryMode, mode2: QueryMode, today: int, md: MasterData,
                            invoices: map<InvoiceId, Invoice>, scan1: seq<Invoice>, scan2: seq<Invoice>)
    requires Keyed(invoices) && IsTableScan(scan1, invoices)
    requires IsTableScan(scan2, Reconcile(invoices, md.purchasers, InvoicesToFinance(mode1, today, md, scan1)))
    ensures var after := Reconcile(invoices, md.purchasers, InvoicesToFinance(mode1, today, md, scan1));
            Reconcile(after, md.purchasers, InvoicesToFinance(mode2, today, md, scan2)) == after
  {
    var after := Reconcile(invoices, md.purchasers, InvoicesToFinance(mode1, today, md, scan1));
    var again := Reconcile(after, md.purchasers, InvoicesToFinance(mode2, today, md, scan2));
    FinanceOutcome(mode1, today, md, invoices, scan1);
    ReconcileKeepsKeys(invoices, md.purchasers, InvoicesToFinance(mode1, today, md, scan1));
    FinanceOutcome(mode2, today, md, after, scan2);
    forall id | id in after ensures again[id] == after[id] {
      OffersOfInvoice(today, md, invoices[id]);
      OffersOfInvoice(today, md, after[id]);
      assert OffersOf(today, md, after[id]) == [];
    }
  }

  /**
   * The reconciliation of one offer, as the service's unit tests exercise it: no offers save an
   * empty list and look nothing up; an offer whose invoice is found saves that invoice with the
   * offer's terms, naming the purchaser only if it is found; an offer whose invoice is missing
   * saves nothing and changes nothing.
   */
  lemma SingleOfferReconciliation(invoices: map<InvoiceId, Invoice>, purchasers: map<PurchaserId, Purchaser>,
                                  t: InvoiceTuple)
    ensures SavedIds(invoices, []) == [] && InvoiceLookups([]) == [] && PurchaserLookups([]) == []
    ensures InvoiceLookups([t]) == [t.invoiceId] && PurchaserLookups([t]) == [t.purchaserId]
    ensures t.invoiceId in invoices ==>
      && SavedIds(invoices, [t]) == [t.invoiceId]
      && var after := Reconcile(invoices, purchasers, [t]);
         && t.invoiceId in after
         && after[t.invoiceId].financing
            == Some(Financing(if t.purchaserId in purchasers then Some(t.purchaserId) else None,
                              t.earlyPaymentAmount, t.financingRate, t.daysToFinance))
    ensures t.invoiceId !in invoices ==>
      SavedIds(invoices, [t]) == [] && Reconcile(invoices, purchasers, [t]) == invoices
  {
    assert [t][..0] == [];
  }
}
