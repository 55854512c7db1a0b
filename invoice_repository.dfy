/**
 * The two native queries of the invoice repository, as functions over the tables.
 *
 * Both start from the same join (the `invoices` common table expression): every
 * unfinanced invoice, its creditor, every financing-settings row of that creditor,
 * and every purchaser linked to those settings. Each joined row is priced (days to
 * finance, pro-rated rate) and kept when it meets the purchaser's minimum term and
 * the creditor's maximum rate (the `eligible_invoices` expression). The all-purchasers
 * query returns every kept row; the lowest-rate query keeps only the rows whose
 * early-payment amount equals the largest one of their invoice.
 *
 * Rows come out in the nested order of the join: invoices in table-scan order, then
 * settings, then linked purchasers.
 */
module InvoiceRepository {
  import opened Wrappers
  import opened Entities
  import opened Pricing
  import opened OfferGroups

  /** The read-only master data the queries join invoices with, keyed by primary key. */
  datatype MasterData = MasterData(
    creditors: map<CreditorId, Creditor>,
    settings: seq<FinancingSettings>,
    purchasers: map<PurchaserId, Purchaser>)

  /** A row of the `invoices` expression: one (invoice, settings, purchaser) combination, priced. */
  datatype JoinedRow = JoinedRow(
    iid: InvoiceId,
    pid: PurchaserId,
    valueInCents: int,
    maxFinancingRateInBps: int,
    minimumFinancingTermInDays: int,
    daysToFinance: int,
    financingRate: real)

  function JoinRow(today: int, inv: Invoice, c: Creditor, s: FinancingSettings, pid: PurchaserId, p: Purchaser): JoinedRow
  {
    var days := DaysToFinance(today, inv.maturityDay);
    JoinedRow(inv.id, pid, inv.valueInCents, c.maxFinancingRateInBps,
              p.minimumFinancingTermInDays, days, FinancingRate(s.annualRateInBps, days))
  }

  /** Rows for one settings row: its linked purchasers that exist in the purchaser table. */
  function JoinPurchasers(today: int, md: MasterData, inv: Invoice, c: Creditor, s: FinancingSettings,
                          pids: seq<PurchaserId>): (rows: seq<JoinedRow>)
    ensures forall r :: r in rows <==>
      exists pid :: pid in pids && pid in md.purchasers && r == JoinRow(today, inv, c, s, pid, md.purchasers[pid])
  {
    if pids == [] then []
    else
      var rest := JoinPurchasers(today, md, inv, c, s, pids[1..]);
      var pid := pids[0];
      var rows := (if pid in md.purchasers then [JoinRow(today, inv, c, s, pid, md.purchasers[pid])] else []) + rest;
      assert forall r :: r in rows ==>
        exists pid :: pid in pids && pid in md.purchasers && r == JoinRow(today, inv, c, s, pid, md.purchasers[pid]) by {
        forall r | r in rows
          ensures exists pid :: pid in pids && pid in md.purchasers && r == JoinRow(today, inv, c, s, pid, md.purchasers[pid])
        {
          if r !in rest {
            assert pid in pids;
          } else {
            var q :| q in pids[1..] && q in md.purchasers && r == JoinRow(today, inv, c, s, q, md.purchasers[q]);
            assert q in pids;
          }
        }
      }
      assert forall q :: q in pids && q in md.purchasers ==> JoinRow(today, inv, c, s, q, md.purchasers[q]) in rows by {
        forall q | q in pids && q in md.purchasers
          ensures JoinRow(today, inv, c, s, q, md.purchasers[q]) in rows
        {
          if q != pid {
            assert q in pids[1..];
          }
        }
      }
      rows
  }

  /** Rows for one invoice of creditor `c`, over the settings rows `ss` of any creditor. */
  function JoinSettings(today: int, md: MasterData, inv: Invoice, c: Creditor,
                        ss: seq<FinancingSettings>): (rows: seq<JoinedRow>)
    ensures forall r :: r in rows <==>
      exists s, pid :: s in ss && s.creditor == inv.creditor && pid in s.purchasers && pid in md.purchasers
                       && r == JoinRow(today, inv, c, s, pid, md.purchasers[pid])
  {
    if ss == [] then []
    else
      var rest := JoinSettings(today, md, inv, c, ss[1..]);
      var s := ss[0];
      var here := if s.creditor == inv.creditor then JoinPurchasers(today, md, inv, c, s, s.purchasers) else [];
      var rows := here + rest;
      assert forall r :: r in rows ==>
        exists s, pid :: s in ss && s.creditor == inv.creditor && pid in s.purchasers && pid in md.purchasers
                         && r == JoinRow(today, inv, c, s, pid, md.purchasers[pid]) by {
        forall r | r in rows
          ensures exists s, pid :: s in ss && s.creditor == inv.creditor && pid in s.purchasers && pid in md.purchasers
                                   && r == JoinRow(today, inv, c, s, pid, md.purchasers[pid])
        {
          if r in here {
            var q :| q in s.purchasers && q in md.purchasers && r == JoinRow(today, inv, c, s, q, md.purchasers[q]);
            assert s in ss;
          } else {
            var s', q :| s' in ss[1..] && s'.creditor == inv.creditor && q in s'.purchasers && q in md.purchasers
                         && r == JoinRow(today, inv, c, s', q, md.purchasers[q]);
            assert s' in ss;
          }
        }
      }
      assert forall s', q :: s' in ss && s'.creditor == inv.creditor && q in s'.purchasers && q in md.purchasers
                             ==> JoinRow(today, inv, c, s', q, md.purchasers[q]) in rows by {
        forall s', q | s' in ss && s'.creditor == inv.creditor && q in s'.purchasers && q in md.purchasers
          ensures JoinRow(today, inv, c, s', q, md.purchasers[q]) in rows
        {
          if s' != s {
            assert s' in ss[1..];
          }
        }
      }
      rows
  }

  /** The joined rows of one invoice: none unless it is unfinanced and its creditor exists. */
  function JoinedRowsOf(today: int, md: MasterData, inv: Invoice): seq<JoinedRow>
  {
    if inv.financing.None? && inv.creditor in md.creditors
    then JoinSettings(today, md, inv, md.creditors[inv.creditor], md.settings)
    else []
  }

  /** The `invoices` expression: the joined rows of every invoice, in scan order. */
  function JoinedRows(today: int, md: MasterData, invoices: seq<Invoice>): seq<JoinedRow>
  {
    if invoices == [] then []
    else JoinedRowsOf(today, md, invoices[0]) + JoinedRows(today, md, invoices[1..])
  }

  /** Minimum term and maximum rate, both inclusive. */
  predicate IsEligible(r: JoinedRow) {
    r.daysToFinance >= r.minimumFinancingTermInDays && r.financingRate <= r.maxFinancingRateInBps as real
  }

  function ToTuple(r: JoinedRow): InvoiceTuple {
    InvoiceTuple(r.iid, r.pid, r.daysToFinance, r.financingRate, EarlyPaymentAmount(r.valueInCents, r.financingRate))
  }

  /** The `eligible_invoices` expression: eligible rows, with their early-payment amount. */
  function EligibleTuples(rows: seq<JoinedRow>): (ts: seq<InvoiceTuple>)
    ensures forall t :: t in ts <==> exists r :: r in rows && IsEligible(r) && t == ToTuple(r)
  {
    if rows == [] then []
    else
      var rest := EligibleTuples(rows[1..]);
      var ts := (if IsEligible(rows[0]) then [ToTuple(rows[0])] else []) + rest;
      assert forall t :: t in rest ==> exists r :: r in rows && IsEligible(r) && t == ToTuple(r) by {
        forall t | t in rest ensures exists r :: r in rows && IsEligible(r) && t == ToTuple(r) {
          var r :| r in rows[1..] && IsEligible(r) && t == ToTuple(r);
          assert r in rows;
        }
      }
      assert forall r :: r in rows && IsEligible(r) ==> ToTuple(r) in ts by {
        forall r | r in rows && IsEligible(r) ensures ToTuple(r) in ts {
          if r != rows[0] {
            assert r in rows[1..];
          }
        }
      }
      ts
  }

  /** `findNotFinancedForAllPurchasers`: every eligible (invoice, purchaser) offer. */
  function FindNotFinancedForAllPurchasers(today: int, md: MasterData, invoices: seq<Invoice>): seq<InvoiceTuple>
  {
    EligibleTuples(JoinedRows(today, md, invoices))
  }

  /** The rows of `candidates` whose amount is the largest among `eligible`'s rows for their invoice. */
  function KeepInvoiceMaxima(candidates: seq<InvoiceTuple>, eligible: seq<InvoiceTuple>): (kept: seq<InvoiceTuple>)
    ensures forall t :: t in kept <==>
      t in candidates && MaxAmount(Group(eligible, t.invoiceId)) == Some(t.earlyPaymentAmount)
  {
    if candidates == [] then []
    else
      var t := candidates[0];
      (if MaxAmount(Group(eligible, t.invoiceId)) == Some(t.earlyPaymentAmount) then [t] else [])
        + KeepInvoiceMaxima(candidates[1..], eligible)
  }

  /**
   * `findNotFinancedForLowestRatePurchaser`: the eligible rows joined with the per-invoice
   * maximum amount, on equal amount. Ties are not broken: an invoice may yield several rows.
   */
  function FindNotFinancedForLowestRatePurchaser(today: int, md: MasterData, invoices: seq<Invoice>): seq<InvoiceTuple>
  {
    var eligible := FindNotFinancedForAllPurchasers(today, md, invoices);
    KeepInvoiceMaxima(eligible, eligible)
  }

  /** The offers one invoice contributes to the all-purchasers query. */
  function OffersOf(today: int, md: MasterData, inv: Invoice): seq<InvoiceTuple>
  {
    EligibleTuples(JoinedRowsOf(today, md, inv))
  }

  /**
   * `t` is an offer of purchaser `pid` for invoice `inv` through settings `s`: the invoice is
   * unfinanced, the settings belong to the invoice's own creditor and link the purchaser, the
   * term meets the purchaser's minimum and the rate the creditor's maximum (both inclusive),
   * and `t` carries the invoice, the purchaser and the priced term.
   */
  ghost predicate IsOfferFor(today: int, md: MasterData, inv: Invoice, s: FinancingSettings, pid: PurchaserId,
                             t: InvoiceTuple)
  {
    && inv.financing.None?
    && inv.creditor in md.creditors
    && s in md.settings && s.creditor == inv.creditor
    && pid in s.purchasers && pid in md.purchasers
    && var days := DaysToFinance(today, inv.maturityDay);
       var rate := FinancingRate(s.annualRateInBps, days);
       && days >= md.purchasers[pid].minimumFinancingTermInDays
       && rate <= md.creditors[inv.creditor].maxFinancingRateInBps as real
       && t == InvoiceTuple(inv.id, pid, days, rate, EarlyPaymentAmount(inv.valueInCents, rate))
  }

  /** The offers of one invoice are exactly its eligible (settings, purchaser) combinations. */
  lemma OffersOfCharacterization(today: int, md: MasterData, inv: Invoice, t: InvoiceTuple)
    ensures t in OffersOf(today, md, inv) <==> exists s, pid :: IsOfferFor(today, md, inv, s, pid, t)
  {
    var rows := JoinedRowsOf(today, md, inv);
    if t in OffersOf(today, md, inv) {
      var r :| r in rows && IsEligible(r) && t == ToTuple(r);
      var c := md.creditors[inv.creditor];
      var s, pid :| s in md.settings && s.creditor == inv.creditor && pid in s.purchasers && pid in md.purchasers
                    && r == JoinRow(today, inv, c, s, pid, md.purchasers[pid]);
      assert IsOfferFor(today, md, inv, s, pid, t);
    }
    if exists s, pid :: IsOfferFor(today, md, inv, s, pid, t) {
      var s, pid :| IsOfferFor(today, md, inv, s, pid, t);
      var r := JoinRow(today, inv, md.creditors[inv.creditor], s, pid, md.purchasers[pid]);
      assert r in rows && IsEligible(r) && t == ToTuple(r);
    }
  }

  /** Every offer of an invoice names it and an existing purchaser, and is priced over the invoice's own term. */
  lemma OffersOfInvoice(today: int, md: MasterData, inv: Invoice)
    ensures inv.financing.Some? ==> OffersOf(today, md, inv) == []
    ensures forall t :: t in OffersOf(today, md, inv) ==>
      t.invoiceId == inv.id && t.daysToFinance == DaysToFinance(today, inv.maturityDay) && t.purchaserId in md.purchasers
  {
    forall t | t in OffersOf(today, md, inv)
      ensures t.invoiceId == inv.id && t.daysToFinance == DaysToFinance(today, inv.maturityDay) && t.purchaserId in md.purchasers
    {
      OffersOfCharacterization(today, md, inv, t);
    }
  }

  lemma {:induction false} EligibleTuplesAppend(a: seq<JoinedRow>, b: seq<JoinedRow>)
    ensures EligibleTuples(a + b) == EligibleTuples(a) + EligibleTuples(b)
  {
    if a == [] {
      assert a + b == b;
    } else {
      var ab := a + b;
      assert ab[1..] == a[1..] + b;
      EligibleTuplesAppend(a[1..], b);
      var head := if IsEligible(a[0]) then [ToTuple(a[0])] else [];
      assert head + (EligibleTuples(a[1..]) + EligibleTuples(b)) == (head + EligibleTuples(a[1..])) + EligibleTuples(b);
    }
  }

  /** The all-purchasers query is the concatenation of each scanned invoice's offers. */
  lemma AllPurchasersSplits(today: int, md: MasterData, invoices: seq<Invoice>)
    requires invoices != []
    ensures FindNotFinancedForAllPurchasers(today, md, invoices)
            == OffersOf(today, md, invoices[0]) + FindNotFinancedForAllPurchasers(today, md, invoices[1..])
  {
    EligibleTuplesAppend(JoinedRowsOf(today, md, invoices[0]), JoinedRows(today, md, invoices[1..]));
  }

  /**
   * The all-purchasers query returns exactly the eligible offers of the scanned invoices:
   * nothing for a financed invoice, nothing without settings of the invoice's own creditor
   * linking the purchaser, nothing outside the inclusive term and rate bounds.
   */
  lemma {:induction false} AllPurchasersCharacterization(today: int, md: MasterData, invoices: seq<Invoice>,
                                                         t: InvoiceTuple)
    ensures t in FindNotFinancedForAllPurchasers(today, md, invoices) <==>
            exists inv, s, pid :: inv in invoices && IsOfferFor(today, md, inv, s, pid, t)
  {
    if invoices != [] {
      AllPurchasersSplits(today, md, invoices);
      AllPurchasersCharacterization(today, md, invoices[1..], t);
      OffersOfCharacterization(today, md, invoices[0], t);
      if exists inv, s, pid :: inv in invoices && IsOfferFor(today, md, inv, s, pid, t) {
        var inv, s, pid :| inv in invoices && IsOfferFor(today, md, inv, s, pid, t);
        if inv != invoices[0] {
          assert inv in invoices[1..];
        }
      }
      if exists inv, s, pid :: inv in invoices[1..] && IsOfferFor(today, md, inv, s, pid, t) {
        var inv, s, pid :| inv in invoices[1..] && IsOfferFor(today, md, inv, s, pid, t);
        assert inv in invoices;
      }
    }
  }

  /** When every invoice is already financed, neither query returns anything. */
  lemma FinancedInvoicesYieldNoOffers(today: int, md: MasterData, invoices: seq<Invoice>)
    requires forall inv :: inv in invoices ==> inv.financing.Some?
    ensures FindNotFinancedForAllPurchasers(today, md, invoices) == []
    ensures FindNotFinancedForLowestRatePurchaser(today, md, invoices) == []
  {
    var all := FindNotFinancedForAllPurchasers(today, md, invoices);
    if all != [] {
      AllPurchasersCharacterization(today, md, invoices, all[0]);
      assert false;
    }
  }

  /**
   * A row of the lowest-rate query is an eligible offer whose amount is the largest among its
   * invoice's eligible offers, and every such offer is a row (so ties give several rows).
   */
  lemma LowestRateRowsAreMaxima(today: int, md: MasterData, invoices: seq<Invoice>, t: InvoiceTuple)
    ensures var all := FindNotFinancedForAllPurchasers(today, md, invoices);
            t in FindNotFinancedForLowestRatePurchaser(today, md, invoices) <==>
            t in all && forall u :: u in all && u.invoiceId == t.invoiceId ==> u.earlyPaymentAmount <= t.earlyPaymentAmount
  {
    var all := FindNotFinancedForAllPurchasers(today, md, invoices);
    var g := Group(all, t.invoiceId);
    if t in all && forall u :: u in all && u.invoiceId == t.invoiceId ==> u.earlyPaymentAmount <= t.earlyPaymentAmount {
      assert t in g;
      var m := MaxAmount(g).value;
      var u :| u in g && u.earlyPaymentAmount == m;
      assert m == t.earlyPaymentAmount;
    }
  }

  /** The lowest-rate query has a row for exactly the invoices the all-purchasers query has offers for. */
  lemma LowestRateCoversSameInvoices(today: int, md: MasterData, invoices: seq<Invoice>)
    ensures InvoiceIds(FindNotFinancedForLowestRatePurchaser(today, md, invoices))
            == InvoiceIds(FindNotFinancedForAllPurchasers(today, md, invoices))
  {
    var all := FindNotFinancedForAllPurchasers(today, md, invoices);
    forall id | id in InvoiceIds(all)
      ensures id in InvoiceIds(FindNotFinancedForLowestRatePurchaser(today, md, invoices))
    {
      var g := Group(all, id);
      var u :| u in g && u.earlyPaymentAmount == MaxAmount(g).value;
      assert u in FindNotFinancedForLowestRatePurchaser(today, md, invoices);
    }
  }

  /** No two scanned rows share an invoice id (the id is the table's primary key). */
  ghost predicate UniqueIds(invoices: seq<Invoice>) {
    forall i, j :: 0 <= i < |invoices| && 0 <= j < |invoices| && invoices[i].id == invoices[j].id ==> i == j
  }

  /**
   * Over a table with unique ids and non-negative values, an offer with the lowest rate among its
   * invoice's offers has the largest amount, so the lowest-rate query returns it.
   */
  lemma LowestRateIncludesCheapestOffer(today: int, md: MasterData, invoices: seq<Invoice>, t: InvoiceTuple)
    requires UniqueIds(invoices)
    requires forall inv :: inv in invoices ==> inv.valueInCents >= 0
    requires t in FindNotFinancedForAllPurchasers(today, md, invoices)
    requires forall u :: u in FindNotFinancedForAllPurchasers(today, md, invoices) && u.invoiceId == t.invoiceId
                         ==> t.financingRate <= u.financingRate
    ensures t in FindNotFinancedForLowestRatePurchaser(today, md, invoices)
  {
    var all := FindNotFinancedForAllPurchasers(today, md, invoices);
    AllPurchasersCharacterization(today, md, invoices, t);
    var inv, s, pid :| inv in invoices && IsOfferFor(today, md, inv, s, pid, t);
    forall u | u in all && u.invoiceId == t.invoiceId
      ensures u.earlyPaymentAmount <= t.earlyPaymentAmount
    {
      AllPurchasersCharacterization(today, md, invoices, u);
      var inv', s', pid' :| inv' in invoices && IsOfferFor(today, md, inv', s', pid', u);
      SameIdSameInvoice(invoices, inv, inv');
      EarlyPaymentAmountAntitone(inv.valueInCents, t.financingRate, u.financingRate);
    }
    LowestRateRowsAreMaxima(today, md, invoices, t);
  }

  lemma SameIdSameInvoice(invoices: seq<Invoice>, a: Invoice, b: Invoice)
    requires UniqueIds(invoices) && a in invoices && b in invoices && a.id == b.id
    ensures a == b
  {
    var i :| 0 <= i < |invoices| && invoices[i] == a;
    var j :| 0 <= j < |invoices| && invoices[j] == b;
  }

  /** With unique ids, the all-purchasers offers for a scanned invoice are that invoice's own offers. */
  lemma {:induction false} GroupOfAllPurchasers(today: int, md: MasterData, invoices: seq<Invoice>, k: nat)
    requires UniqueIds(invoices) && k < |invoices|
    ensures Group(FindNotFinancedForAllPurchasers(today, md, invoices), invoices[k].id) == OffersOf(today, md, invoices[k])
  {
    var id := invoices[k].id;
    var head := OffersOf(today, md, invoices[0]);
    var tail := FindNotFinancedForAllPurchasers(today, md, invoices[1..]);
    AllPurchasersSplits(today, md, invoices);
    GroupAppend(head, tail, id);
    OffersOfInvoice(today, md, invoices[0]);
    UniqueIdsTail(invoices);
    if k == 0 {
      GroupOfOneInvoice(head, id);
      GroupOfAbsentInvoice(today, md, invoices[1..], id);
      assert Group(tail, id) == [];
      assert head + [] == head;
    } else {
      GroupOfNoOffers(head, id);
      GroupOfAllPurchasers(today, md, invoices[1..], k - 1);
      assert invoices[1..][k - 1] == invoices[k];
    }
  }

  lemma UniqueIdsTail(invoices: seq<Invoice>)
    requires UniqueIds(invoices) && invoices != []
    ensures UniqueIds(invoices[1..])
    ensures forall inv :: inv in invoices[1..] ==> inv.id != invoices[0].id
    ensures forall k :: 0 < k < |invoices| ==> invoices[k].id != invoices[0].id
  {
    forall i, j | 0 <= i < |invoices[1..]| && 0 <= j < |invoices[1..]| && invoices[1..][i].id == invoices[1..][j].id
      ensures i == j
    {
      assert invoices[i + 1].id == invoices[j + 1].id;
    }
    forall inv | inv in invoices[1..] ensures inv.id != invoices[0].id {
      var j :| 0 <= j < |invoices[1..]| && invoices[1..][j] == inv;
      assert invoices[j + 1] == inv;
    }
  }

  /** An invoice id the scan does not contain has no offers. */
  lemma {:induction false} GroupOfAbsentInvoice(today: int, md: MasterData, invoices: seq<Invoice>, id: InvoiceId)
    requires forall inv :: inv in invoices ==> inv.id != id
    ensures Group(FindNotFinancedForAllPurchasers(today, md, invoices), id) == []
  {
    if invoices != [] {
      AllPurchasersSplits(today, md, invoices);
      GroupAppend(OffersOf(today, md, invoices[0]), FindNotFinancedForAllPurchasers(today, md, invoices[1..]), id);
      OffersOfInvoice(today, md, invoices[0]);
      GroupOfNoOffers(OffersOf(today, md, invoices[0]), id);
      assert forall inv :: inv in invoices[1..] ==> inv in invoices;
      GroupOfAbsentInvoice(today, md, invoices[1..], id);
    }
  }

  lemma GroupOfNoOffers(offers: seq<InvoiceTuple>, id: InvoiceId)
    requires forall t :: t in offers ==> t.invoiceId != id
    ensures Group(offers, id) == []
  {
  }
}
