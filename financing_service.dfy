/**
 * The financing service's reconciliation: for each selected offer it looks up the
 * purchaser and the invoice by id, builds a financing from the offer's days, rate and
 * amount, attaches the purchaser only if it was found, and sets the financing on the
 * invoice only if the invoice was found; the found invoices are then saved in one batch.
 *
 * The store plays the database and its persistence context: `invoices` holds the managed
 * invoices, which `setFinancing` changes in place; the three logs record the calls the
 * service makes on the repositories.
 */
module FinancingService {
  import opened Wrappers
  import opened Entities
  import opened OfferGroups
  import opened InvoiceRepository
  import opened OfferSelection

  /** The financing built from offer `t`: the purchaser is attached only when the lookup finds it. */
  function FinancingFor(t: InvoiceTuple, purchasers: map<PurchaserId, Purchaser>): Financing {
    Financing(if t.purchaserId in purchasers then Some(t.purchaserId) else None,
              t.earlyPaymentAmount, t.financingRate, t.daysToFinance)
  }

  /** One offer's effect: a found invoice gets the offer's financing; a missing one is skipped. */
  function ApplyTuple(invoices: map<InvoiceId, Invoice>, purchasers: map<PurchaserId, Purchaser>,
                      t: InvoiceTuple): map<InvoiceId, Invoice>
  {
    if t.invoiceId in invoices
    then invoices[t.invoiceId := invoices[t.invoiceId].(financing := Some(FinancingFor(t, purchasers)))]
    else invoices
  }

  /** The invoices after the offers `tuples` have been applied in order. */
  function Reconcile(invoices: map<InvoiceId, Invoice>, purchasers: map<PurchaserId, Purchaser>,
                     tuples: seq<InvoiceTuple>): map<InvoiceId, Invoice>
  {
    if tuples == [] then invoices
    else ApplyTuple(Reconcile(invoices, purchasers, tuples[..|tuples| - 1]), purchasers, tuples[|tuples| - 1])
  }

  /** `tuples[k]` is the last offer for invoice `id`. */
  ghost predicate LastForInvoiceAt(tuples: seq<InvoiceTuple>, k: int, id: InvoiceId) {
    && 0 <= k < |tuples|
    && tuples[k].invoiceId == id
    && forall j :: k < j < |tuples| ==> tuples[j].invoiceId != id
  }

  /** The last offer for invoice `id`, if any. */
  function LastFor(tuples: seq<InvoiceTuple>, id: InvoiceId): (r: Option<InvoiceTuple>)
    ensures r.None? <==> id !in InvoiceIds(tuples)
    ensures r.Some? ==> exists k :: LastForInvoiceAt(tuples, k, id) && tuples[k] == r.value
  {
    if tuples == [] then None
    else
      var init := tuples[..|tuples| - 1];
      var last := tuples[|tuples| - 1];
      assert tuples == init + [last];
      assert InvoiceIds(tuples) == InvoiceIds(init) + {last.invoiceId};
      if last.invoiceId == id then
        assert LastForInvoiceAt(tuples, |tuples| - 1, id);
        Some(last)
      else
        var r := LastFor(init, id);
        assert r.Some? ==> exists k :: LastForInvoiceAt(tuples, k, id) && tuples[k] == r.value by {
          if r.Some? {
            var k :| LastForInvoiceAt(init, k, id) && init[k] == r.value;
            assert LastForInvoiceAt(tuples, k, id);
          }
        }
        r
  }

  /**
   * Reconciliation is "last offer wins": it keeps the set of invoice ids, leaves an invoice no
   * offer names unchanged, and gives every other invoice the financing of the last offer naming it.
   */
  lemma {:induction false} ReconcileIsLastWins(invoices: map<InvoiceId, Invoice>,
                                               purchasers: map<PurchaserId, Purchaser>, tuples: seq<InvoiceTuple>)
    ensures Reconcile(invoices, purchasers, tuples).Keys == invoices.Keys
    ensures forall id :: id in invoices ==>
      Reconcile(invoices, purchasers, tuples)[id] ==
        match LastFor(tuples, id)
        case None => invoices[id]
        case Some(t) => invoices[id].(financing := Some(FinancingFor(t, purchasers)))
  {
    if tuples != [] {
      var init := tuples[..|tuples| - 1];
      var t := tuples[|tuples| - 1];
      ReconcileIsLastWins(invoices, purchasers, init);
    }
  }

  /** Extending a prefix of the offers by one offer extends every per-offer record by that offer. */
  lemma PrefixStep(invoices: map<InvoiceId, Invoice>, purchasers: map<PurchaserId, Purchaser>,
                   tuples: seq<InvoiceTuple>, i: int)
    requires 0 <= i < |tuples|
    ensures Reconcile(invoices, purchasers, tuples[..i + 1])
            == ApplyTuple(Reconcile(invoices, purchasers, tuples[..i]), purchasers, tuples[i])
    ensures InvoiceLookups(tuples[..i + 1]) == InvoiceLookups(tuples[..i]) + [tuples[i].invoiceId]
    ensures PurchaserLookups(tuples[..i + 1]) == PurchaserLookups(tuples[..i]) + [tuples[i].purchaserId]
    ensures SavedIds(invoices, tuples[..i + 1])
            == SavedIds(invoices, tuples[..i]) + (if tuples[i].invoiceId in invoices then [tuples[i].invoiceId] else [])
  {
    assert tuples[..i + 1][..i] == tuples[..i];
  }

  /** The invoice table maps each id to the invoice with that id. */
  ghost predicate Keyed(invoices: map<InvoiceId, Invoice>) {
    forall id :: id in invoices ==> invoices[id].id == id
  }

  /** Reconciliation only changes financing links, so it keeps the table keyed. */
  lemma ReconcileKeepsKeys(invoices: map<InvoiceId, Invoice>, purchasers: map<PurchaserId, Purchaser>,
                           tuples: seq<InvoiceTuple>)
    requires Keyed(invoices)
    ensures Keyed(Reconcile(invoices, purchasers, tuples))
  {
    ReconcileIsLastWins(invoices, purchasers, tuples);
  }

  /**
   * The ids of the invoices the run saves, one per offer whose invoice is found, in offer order:
   * only invoices named by an offer, and none for an offer whose invoice is missing.
   */
  function SavedIds(invoices: map<InvoiceId, Invoice>, tuples: seq<InvoiceTuple>): (ids: seq<InvoiceId>)
    ensures |ids| <= |tuples|
    ensures forall id :: id in ids ==> id in invoices && id in InvoiceIds(tuples)
    ensures forall t :: t in tuples && t.invoiceId in invoices ==> t.invoiceId in ids
  {
    if tuples == [] then []
    else
      var init := tuples[..|tuples| - 1];
      var last := tuples[|tuples| - 1];
      assert tuples == init + [last];
      assert InvoiceIds(tuples) == InvoiceIds(init) + {last.invoiceId};
      SavedIds(invoices, init) + (if last.invoiceId in invoices then [last.invoiceId] else [])
  }

  /** The run saves a found invoice once per offer naming it, and a missing one never. */
  lemma {:induction false} SavedIdsCounts(invoices: map<InvoiceId, Invoice>, tuples: seq<InvoiceTuple>, id: InvoiceId)
    ensures multiset(SavedIds(invoices, tuples))[id] == if id in invoices then |Group(tuples, id)| else 0
  {
    if tuples != [] {
      var init := tuples[..|tuples| - 1];
      var last := tuples[|tuples| - 1];
      assert tuples == init + [last];
      SavedIdsCounts(invoices, init, id);
      GroupAppend(init, [last], id);
      assert Group([last], id) == (if last.invoiceId == id then [last] else []) + Group([], id);
    }
  }

  /** The saved ids follow the offers' order: saving after `a` then `b` saves `a`'s ids, then `b`'s. */
  lemma {:induction false} SavedIdsAppend(invoices: map<InvoiceId, Invoice>, a: seq<InvoiceTuple>, b: seq<InvoiceTuple>)
    ensures SavedIds(invoices, a + b) == SavedIds(invoices, a) + SavedIds(invoices, b)
  {
    if b != [] {
      var ab := a + b;
      var binit := b[..|b| - 1];
      var last := b[|b| - 1];
      assert ab[..|ab| - 1] == a + binit;
      assert ab[|ab| - 1] == last;
      SavedIdsAppend(invoices, a, binit);
      var tail := if last.invoiceId in invoices then [last.invoiceId] else [];
      assert SavedIds(invoices, a) + SavedIds(invoices, binit) + tail
          == SavedIds(invoices, a) + (SavedIds(invoices, binit) + tail);
    } else {
      assert a + b == a;
    }
  }

  /** The invoice ids looked up, one per offer, in offer order. */
  function InvoiceLookups(tuples: seq<InvoiceTuple>): (ids: seq<InvoiceId>)
    ensures |ids| == |tuples|
    ensures forall k :: 0 <= k < |tuples| ==> ids[k] == tuples[k].invoiceId
  {
    if tuples == [] then []
    else InvoiceLookups(tuples[..|tuples| - 1]) + [tuples[|tuples| - 1].invoiceId]
  }

  /** The purchaser ids looked up, one per offer, in offer order. */
  function PurchaserLookups(tuples: seq<InvoiceTuple>): (ids: seq<PurchaserId>)
    ensures |ids| == |tuples|
    ensures forall k :: 0 <= k < |tuples| ==> ids[k] == tuples[k].purchaserId
  {
    if tuples == [] then []
    else PurchaserLookups(tuples[..|tuples| - 1]) + [tuples[|tuples| - 1].purchaserId]
  }

  /** The invoices of `ids`, in order (the list of managed invoices handed to `saveAll`). */
  function InvoicesOf(invoices: map<InvoiceId, Invoice>, ids: seq<InvoiceId>): (r: seq<Invoice>)
    requires forall k :: 0 <= k < |ids| ==> ids[k] in invoices
    ensures |r| == |ids|
    ensures forall k :: 0 <= k < |ids| ==> r[k] == invoices[ids[k]]
  {
    if ids == [] then [] else [invoices[ids[0]]] + InvoicesOf(invoices, ids[1..])
  }

  /** A batch read back from a keyed table is already stored under its ids. */
  lemma InvoicesOfAreStored(invoices: map<InvoiceId, Invoice>, ids: seq<InvoiceId>)
    requires Keyed(invoices)
    requires forall k :: 0 <= k < |ids| ==> ids[k] in invoices
    ensures var batch := InvoicesOf(invoices, ids);
            forall k :: 0 <= k < |batch| ==> batch[k].id in invoices && invoices[batch[k].id] == batch[k]
  {
    var batch := InvoicesOf(invoices, ids);
    forall k | 0 <= k < |batch|
      ensures batch[k].id in invoices && invoices[batch[k].id] == batch[k]
    {
      assert batch[k] == invoices[ids[k]];
      assert ids[k] in invoices;
      assert invoices[ids[k]].id == ids[k];
    }
  }

  /** `saveAll`: each invoice of the batch is written under its id, later ones last. */
  function Upsert(invoices: map<InvoiceId, Invoice>, batch: seq<Invoice>): map<InvoiceId, Invoice>
  {
    if batch == [] then invoices
    else Upsert(invoices, batch[..|batch| - 1])[batch[|batch| - 1].id := batch[|batch| - 1]]
  }

  /** Saving invoices that are already the stored ones changes nothing. */
  lemma {:induction false} UpsertOfStored(invoices: map<InvoiceId, Invoice>, batch: seq<Invoice>)
    requires forall k :: 0 <= k < |batch| ==> batch[k].id in invoices && invoices[batch[k].id] == batch[k]
    ensures Upsert(invoices, batch) == invoices
  {
    if batch != [] {
      UpsertOfStored(invoices, batch[..|batch| - 1]);
    }
  }

  /** `rows` is one pass over the invoice table: every stored invoice exactly once, in some order. */
  ghost predicate IsTableScan(rows: seq<Invoice>, invoices: map<InvoiceId, Invoice>) {
    && UniqueIds(rows)
    && (forall k :: 0 <= k < |rows| ==> rows[k].id in invoices && invoices[rows[k].id] == rows[k])
    && (forall id :: id in invoices ==> invoices[id] in rows)
  }

  class FinancingStore {
    var invoices: map<InvoiceId, Invoice>
    var purchasers: map<PurchaserId, Purchaser>
    var creditors: map<CreditorId, Creditor>
    var settings: seq<FinancingSettings>
    /** The ids passed to the invoice repository's `findById`, in call order. */
    var invoiceLookups: seq<InvoiceId>
    /** The ids passed to the purchaser repository's `findById`, in call order. */
    var purchaserLookups: seq<PurchaserId>
    /** The lists passed to `saveAll`, in call order. */
    var savedBatches: seq<seq<Invoice>>

    ghost predicate Valid()
      reads this
    {
      Keyed(invoices) && PurchasersKeyed()
    }

    ghost predicate PurchasersKeyed()
      reads this
    {
      forall id :: id in purchasers ==> purchasers[id].id == id
    }

    function Master(): MasterData
      reads this
    {
      MasterData(creditors, settings, purchasers)
    }

    constructor (invoices: map<InvoiceId, Invoice>, purchasers: map<PurchaserId, Purchaser>,
                 creditors: map<CreditorId, Creditor>, settings: seq<FinancingSettings>)
      requires Keyed(invoices)
      requires forall id :: id in purchasers ==> purchasers[id].id == id
      ensures Valid()
      ensures this.invoices == invoices && this.purchasers == purchasers
      ensures this.creditors == creditors && this.settings == settings
      ensures invoiceLookups == [] && purchaserLookups == [] && savedBatches == []
    {
      this.invoices := invoices;
      this.purchasers := purchasers;
      this.creditors := creditors;
      this.settings := settings;
      invoiceLookups := [];
      purchaserLookups := [];
      savedBatches := [];
    }

    /** The invoice repository's `findById`. */
    method FindInvoiceById(id: InvoiceId) returns (r: Option<Invoice>)
      modifies this`invoiceLookups
      ensures r == if id in invoices then Some(invoices[id]) else None
      ensures invoiceLookups == old(invoiceLookups) + [id]
    {
      r := if id in invoices then Some(invoices[id]) else None;
      invoiceLookups := invoiceLookups + [id];
    }

    /** The purchaser repository's `findById`. */
    method FindPurchaserById(id: PurchaserId) returns (r: Option<Purchaser>)
      modifies this`purchaserLookups
      ensures r == if id in purchasers then Some(purchasers[id]) else None
      ensures purchaserLookups == old(purchaserLookups) + [id]
    {
      r := if id in purchasers then Some(purchasers[id]) else None;
      purchaserLookups := purchaserLookups + [id];
    }

    /** `setFinancing` on the managed invoice `id`. */
    method SetFinancing(id: InvoiceId, f: Financing)
      requires id in invoices
      modifies this`invoices
      ensures invoices == old(invoices)[id := old(invoices)[id].(financing := Some(f))]
    {
      invoices := invoices[id := invoices[id].(financing := Some(f))];
    }

    /** The invoice repository's `saveAll`. */
    method SaveAll(batch: seq<Invoice>)
      modifies this`invoices, this`savedBatches
      ensures invoices == Upsert(old(invoices), batch)
      ensures savedBatches == old(savedBatches) + [batch]
    {
      for k := 0 to |batch|
        invariant invoices == Upsert(old(invoices), batch[..k])
        invariant savedBatches == old(savedBatches)
      {
        assert batch[..k + 1][..k] == batch[..k];
        invoices := invoices[batch[k].id := batch[k]];
      }
      assert batch[..|batch|] == batch;
      savedBatches := savedBatches + [batch];
    }

    /** The scan of the invoice table both queries start from; the order of the rows is unspecified. */
    method ScanInvoices() returns (rows: seq<Invoice>)
      requires Valid()
      ensures IsTableScan(rows, invoices)
    {
      rows := [];
      var remaining := invoices.Keys;
      while remaining != {}
        invariant remaining <= invoices.Keys
        invariant forall k :: 0 <= k < |rows| ==> rows[k].id in invoices && rows[k].id !in remaining
                                                  && invoices[rows[k].id] == rows[k]
        invariant forall id :: id in invoices && id !in remaining ==> invoices[id] in rows
        invariant UniqueIds(rows)
        decreases remaining
      {
        assert exists id :: id in remaining by {
          if forall id :: id !in remaining {
            assert false;
          }
        }
        var id :| id in remaining;
        rows := rows + [invoices[id]];
        remaining := remaining - {id};
      }
    }

    /**
     * The loop body of `getInvoicesToSave`: look up the offer's purchaser and invoice, and set
     * the offer's financing on the invoice when it is found; `found` tells whether it was.
     */
    method ReconcileOne(t: InvoiceTuple) returns (found: bool)
      requires PurchasersKeyed()
      modifies this`invoices, this`invoiceLookups, this`purchaserLookups
      ensures found <==> t.invoiceId in old(invoices)
      ensures invoices == ApplyTuple(old(invoices), purchasers, t)
      ensures invoices.Keys == old(invoices).Keys
      ensures invoiceLookups == old(invoiceLookups) + [t.invoiceId]
      ensures purchaserLookups == old(purchaserLookups) + [t.purchaserId]
    {
      var purchaser := FindPurchaserById(t.purchaserId);
      var invoice := FindInvoiceById(t.invoiceId);
      var financing := Financing(if purchaser.Some? then Some(purchaser.value.id) else None,
                                 t.earlyPaymentAmount, t.financingRate, t.daysToFinance);
      assert financing == FinancingFor(t, purchasers);
      found := invoice.Some?;
      if found {
        SetFinancing(t.invoiceId, financing);
      }
    }

    /**
     * `getInvoicesToSave`: applies the offers in order and returns the managed invoices they
     * found, one entry per such offer, each showing its final state (an invoice named by several
     * offers appears several times, carrying the last offer's financing).
     */
    method InvoicesToSave(tuples: seq<InvoiceTuple>) returns (toSave: seq<Invoice>)
      requires Valid()
      modifies this`invoices, this`invoiceLookups, this`purchaserLookups
      ensures Valid()
      ensures invoices == Reconcile(old(invoices), purchasers, tuples)
      ensures invoices.Keys == old(invoices).Keys
      ensures invoiceLookups == old(invoiceLookups) + InvoiceLookups(tuples)
      ensures purchaserLookups == old(purchaserLookups) + PurchaserLookups(tuples)
      ensures toSave == InvoicesOf(invoices, SavedIds(old(invoices), tuples))
    {
      var savedIds: seq<InvoiceId> := [];
      for i := 0 to |tuples|
        invariant invoices == Reconcile(old(invoices), purchasers, tuples[..i])
        invariant invoices.Keys == old(invoices).Keys
        invariant invoiceLookups == old(invoiceLookups) + InvoiceLookups(tuples[..i])
        invariant purchaserLookups == old(purchaserLookups) + PurchaserLookups(tuples[..i])
        invariant savedIds == SavedIds(old(invoices), tuples[..i])
      {
        PrefixStep(old(invoices), purchasers, tuples, i);
        var found := ReconcileOne(tuples[i]);
        if found {
          savedIds := savedIds + [tuples[i].invoiceId];
        }
      }
      assert tuples[..|tuples|] == tuples;
      ReconcileIsLastWins(old(invoices), purchasers, tuples);
      ReconcileKeepsKeys(old(invoices), purchasers, tuples);
      toSave := InvoicesOf(invoices, savedIds);
    }

    /**
     * `finance(mode)`: select the offers to act on, reconcile them and save the found invoices
     * in one batch. `scanned` is the invoice table scan the query read.
     */
    method Finance(mode: QueryMode, today: int) returns (ghost scanned: seq<Invoice>)
      requires Valid()
      modifies this`invoices, this`invoiceLookups, this`purchaserLookups, this`savedBatches
      ensures Valid()
      ensures IsTableScan(scanned, old(invoices))
      ensures invoices.Keys == old(invoices).Keys
      ensures var offers := InvoicesToFinance(mode, today, Master(), scanned);
              && invoices == Reconcile(old(invoices), purchasers, offers)
              && invoiceLookups == old(invoiceLookups) + InvoiceLookups(offers)
              && purchaserLookups == old(purchaserLookups) + PurchaserLookups(offers)
              && savedBatches == old(savedBatches) + [InvoicesOf(invoices, SavedIds(old(invoices), offers))]
    {
      var rows := ScanInvoices();
      scanned := rows;
      var invoicesToFinance := InvoicesToFinance(mode, today, Master(), rows);
      ghost var savedIds := SavedIds(invoices, invoicesToFinance);
      var toSave := InvoicesToSave(invoicesToFinance);
      ghost var reconciled := invoices;
      assert toSave == InvoicesOf(reconciled, savedIds);
      InvoicesOfAreStored(reconciled, savedIds);
      UpsertOfStored(reconciled, toSave);
      SaveAll(toSave);
      assert invoices == reconciled;
      assert savedBatches == old(savedBatches) + [toSave];
    }
  }
}
