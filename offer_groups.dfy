/**
 * Grouping offers by invoice and taking the largest early-payment amount of a group:
 * the `group by iid` / `max(...)` of the lowest-rate query and the `groupingBy` / `max`
 * of the service's all-purchasers reduction both use these.
 */
module OfferGroups {
  import opened Wrappers
  import opened Entities

  /** The invoice ids `offers` mention. */
  function InvoiceIds(offers: seq<InvoiceTuple>): set<InvoiceId> {
    set t | t in offers :: t.invoiceId
  }

  /** The offers for invoice `id`, in their input order. */
  function Group(offers: seq<InvoiceTuple>, id: InvoiceId): (g: seq<InvoiceTuple>)
    ensures forall t :: t in g <==> t in offers && t.invoiceId == id
    ensures |g| <= |offers|
    ensures g == [] <==> id !in InvoiceIds(offers)
  {
    if offers == [] then []
    else (if offers[0].invoiceId == id then [offers[0]] else []) + Group(offers[1..], id)
  }

  /** The largest early-payment amount among `offers`; `None` when there are none. */
  function MaxAmount(offers: seq<InvoiceTuple>): (m: Option<int>)
    ensures m.None? <==> offers == []
    ensures m.Some? ==> exists t :: t in offers && t.earlyPaymentAmount == m.value
    ensures m.Some? ==> forall t :: t in offers ==> t.earlyPaymentAmount <= m.value
  {
    if offers == [] then None
    else
      match MaxAmount(offers[1..])
      case None => Some(offers[0].earlyPaymentAmount)
      case Some(rest) =>
        Some(if offers[0].earlyPaymentAmount >= rest then offers[0].earlyPaymentAmount else rest)
  }

  /** Grouping distributes over concatenation. */
  lemma {:induction false} GroupAppend(a: seq<InvoiceTuple>, b: seq<InvoiceTuple>, id: InvoiceId)
    ensures Group(a + b, id) == Group(a, id) + Group(b, id)
  {
    if a == [] {
      assert a + b == b;
    } else {
      var ab := a + b;
      assert ab[1..] == a[1..] + b;
      GroupAppend(a[1..], b, id);
      var head := if a[0].invoiceId == id then [a[0]] else [];
      assert head + (Group(a[1..], id) + Group(b, id)) == (head + Group(a[1..], id)) + Group(b, id);
    }
  }

  /** A group of offers that all concern `id` is the whole sequence. */
  lemma {:induction false} GroupOfOneInvoice(offers: seq<InvoiceTuple>, id: InvoiceId)
    requires forall t :: t in offers ==> t.invoiceId == id
    ensures Group(offers, id) == offers
  {
    if offers != [] {
      GroupOfOneInvoice(offers[1..], id);
    }
  }
}
