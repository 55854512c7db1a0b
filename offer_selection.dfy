/**
 * How the financing service picks the offers to act on. In the all-purchasers mode it
 * runs the all-purchasers query and reduces it in memory: group by invoice, take the
 * group's largest early-payment amount, keep the first offer of the group with that
 * amount. In the lowest-rate mode the query already did the reduction.
 */
module OfferSelection {
  import opened Wrappers
  import opened Entities
  import opened OfferGroups
  import opened InvoiceRepository

  datatype QueryMode = QueryForAll | QueryForLowestRate

  /** The distinct invoice ids of `offers` in order of first appearance: the keys of the grouping. */
  function GroupKeys(offers: seq<InvoiceTuple>): (keys: seq<InvoiceId>)
    ensures forall i, j :: 0 <= i < j < |keys| ==> keys[i] != keys[j]
    ensures forall id :: id in keys <==> id in InvoiceIds(offers)
  {
    if offers == [] then []
    else
      var init := offers[..|offers| - 1];
      var last := offers[|offers| - 1];
      var keys := GroupKeys(init);
      assert offers == init + [last];
      assert InvoiceIds(offers) == InvoiceIds(init) + {last.invoiceId};
      if last.invoiceId in keys then keys else keys + [last.invoiceId]
  }

  /** `s[k]` is the first element of `s` with amount `target`. */
  ghost predicate FirstWithAmountAt(s: seq<InvoiceTuple>, k: int, target: int) {
    && 0 <= k < |s|
    && s[k].earlyPaymentAmount == target
    && forall j :: 0 <= j < k ==> s[j].earlyPaymentAmount != target
  }

  /** `filter(amount == target).findFirst()`: the first offer of `group` with amount `target`. */
  function FindFirstWithAmount(group: seq<InvoiceTuple>, target: int): (r: Option<InvoiceTuple>)
    ensures r.None? <==> forall t :: t in group ==> t.earlyPaymentAmount != target
    ensures r.Some? ==> exists k :: FirstWithAmountAt(group, k, target) && group[k] == r.value
  {
    if group == [] then None
    else if group[0].earlyPaymentAmount == target then
      assert FirstWithAmountAt(group, 0, target);
      Some(group[0])
    else
      var r := FindFirstWithAmount(group[1..], target);
      assert r.Some? ==> exists k :: FirstWithAmountAt(group, k, target) && group[k] == r.value by {
        if r.Some? {
          var k :| FirstWithAmountAt(group[1..], k, target) && group[1..][k] == r.value;
          assert FirstWithAmountAt(group, k + 1, target) by {
            forall j | 0 <= j < k + 1 ensures group[j].earlyPaymentAmount != target {
              if j > 0 { assert group[j] == group[1..][j - 1]; }
            }
          }
        }
      }
      r
  }

  /** One group's pick: its first offer whose amount equals the group's maximum (`max().orElse(0)`). */
  function BestOfGroup(group: seq<InvoiceTuple>): Option<InvoiceTuple>
  {
    FindFirstWithAmount(group, MaxAmount(group).GetOr(0))
  }

  /** The picks of the groups of `keys`, in key order, absent picks dropped (`filter(Optional::isPresent)`). */
  function BestOfGroups(offers: seq<InvoiceTuple>, keys: seq<InvoiceId>): seq<InvoiceTuple>
  {
    if keys == [] then []
    else
      (match BestOfGroup(Group(offers, keys[0])) case Some(t) => [t] case None => [])
        + BestOfGroups(offers, keys[1..])
  }

  /** `getInvoicesToFinanceForAllPurchasers`, applied to the all-purchasers query's result. */
  function SelectBestPerInvoice(offers: seq<InvoiceTuple>): seq<InvoiceTuple>
  {
    BestOfGroups(offers, GroupKeys(offers))
  }

  /** The `switch (mode)` of `finance`: the offers the service goes on to reconcile. */
  function InvoicesToFinance(mode: QueryMode, today: int, md: MasterData, invoices: seq<Invoice>): seq<InvoiceTuple>
  {
    match mode
    case QueryForAll => SelectBestPerInvoice(FindNotFinancedForAllPurchasers(today, md, invoices))
    case QueryForLowestRate => FindNotFinancedForLowestRatePurchaser(today, md, invoices)
  }

  /** `offers[k]` is, among the offers for invoice `id`, the first one with amount `target`. */
  ghost predicate FirstForInvoiceAt(offers: seq<InvoiceTuple>, k: int, id: InvoiceId, target: int) {
    && 0 <= k < |offers|
    && offers[k].invoiceId == id
    && offers[k].earlyPaymentAmount == target
    && forall j :: 0 <= j < k && offers[j].invoiceId == id ==> offers[j].earlyPaymentAmount != target
  }

  /**
   * `offers[k]` has the largest amount among its invoice's offers, and every earlier offer for
   * that invoice has a strictly smaller one: it is the first of the tied maxima in input order.
   */
  ghost predicate IsFirstMaximum(offers: seq<InvoiceTuple>, k: int) {
    && 0 <= k < |offers|
    && (forall j :: 0 <= j < |offers| && offers[j].invoiceId == offers[k].invoiceId
                    ==> offers[j].earlyPaymentAmount <= offers[k].earlyPaymentAmount)
    && (forall j :: 0 <= j < k && offers[j].invoiceId == offers[k].invoiceId
                    ==> offers[j].earlyPaymentAmount < offers[k].earlyPaymentAmount)
  }

  /** One step of `Group`: the head joins the group of the tail when it is for invoice `id`. */
  lemma GroupStep(offers: seq<InvoiceTuple>, id: InvoiceId)
    requires offers != []
    ensures Group(offers, id) == if offers[0].invoiceId == id then [offers[0]] + Group(offers[1..], id)
                                 else Group(offers[1..], id)
  {
    if offers[0].invoiceId != id {
      assert [] + Group(offers[1..], id) == Group(offers[1..], id);
    }
  }

  /** One step of `FindFirstWithAmount` on a group with a known head. */
  lemma FindFirstStep(head: InvoiceTuple, rest: seq<InvoiceTuple>, target: int)
    ensures FindFirstWithAmount([head] + rest, target)
            == if head.earlyPaymentAmount == target then Some(head) else FindFirstWithAmount(rest, target)
  {
    assert ([head] + rest)[0] == head && ([head] + rest)[1..] == rest;
  }

  /** A first match in the tail that the head does not pre-empt is a first match of the whole input. */
  lemma FirstForInvoiceShift(offers: seq<InvoiceTuple>, k: int, id: InvoiceId, target: int)
    requires offers != [] && FirstForInvoiceAt(offers[1..], k, id, target)
    requires !(offers[0].invoiceId == id && offers[0].earlyPaymentAmount == target)
    ensures FirstForInvoiceAt(offers, k + 1, id, target) && offers[k + 1] == offers[1..][k]
  {
    forall j | 0 <= j < k + 1 && offers[j].invoiceId == id ensures offers[j].earlyPaymentAmount != target {
      if j > 0 { assert offers[j] == offers[1..][j - 1]; }
    }
  }

  /** The first match within a group is the first match for that invoice in the whole input. */
  lemma {:induction false} FirstInGroupIsFirstInInput(offers: seq<InvoiceTuple>, id: InvoiceId, target: int)
    requires FindFirstWithAmount(Group(offers, id), target).Some?
    ensures exists k :: FirstForInvoiceAt(offers, k, id, target)
                        && offers[k] == FindFirstWithAmount(Group(offers, id), target).value
  {
    assert offers != [];
    var head := offers[0];
    var rest := offers[1..];
    var t := FindFirstWithAmount(Group(offers, id), target).value;
    GroupStep(offers, id);
    if head.invoiceId == id {
      FindFirstStep(head, Group(rest, id), target);
    }
    if head.invoiceId == id && head.earlyPaymentAmount == target {
      assert FirstForInvoiceAt(offers, 0, id, target);
    } else {
      assert FindFirstWithAmount(Group(offers, id), target) == FindFirstWithAmount(Group(rest, id), target);
      FirstInGroupIsFirstInInput(rest, id, target);
      var k :| FirstForInvoiceAt(rest, k, id, target) && rest[k] == t;
      FirstForInvoiceShift(offers, k, id, target);
    }
  }

  /** A non-empty group always yields a pick, an offer of the group carrying the group's largest amount. */
  lemma BestOfNonEmptyGroup(g: seq<InvoiceTuple>)
    requires g != []
    ensures BestOfGroup(g).Some?
    ensures BestOfGroup(g).value in g && MaxAmount(g) == Some(BestOfGroup(g).value.earlyPaymentAmount)
  {
    var m := MaxAmount(g).value;
    var w :| w in g && w.earlyPaymentAmount == m;
    var t := FindFirstWithAmount(g, m).value;
    var k :| FirstWithAmountAt(g, k, m) && g[k] == t;
  }

  /** The pick of the group of a present invoice is the first of its tied maxima in the whole input. */
  lemma BestOfGroupIsFirstMaximum(offers: seq<InvoiceTuple>, id: InvoiceId)
    requires id in InvoiceIds(offers)
    ensures BestOfGroup(Group(offers, id)).Some?
    ensures var t := BestOfGroup(Group(offers, id)).value;
            && t in offers && t.invoiceId == id
            && MaxAmount(Group(offers, id)) == Some(t.earlyPaymentAmount)
            && exists k :: IsFirstMaximum(offers, k) && offers[k] == t
  {
    var g := Group(offers, id);
    BestOfNonEmptyGroup(g);
    var m := MaxAmount(g).value;
    var t := BestOfGroup(g).value;
    assert t in g;
    FirstInGroupIsFirstInInput(offers, id, m);
    var k :| FirstForInvoiceAt(offers, k, id, m) && offers[k] == t;
    forall j | 0 <= j < |offers| && offers[j].invoiceId == id ensures offers[j].earlyPaymentAmount <= m {
      assert offers[j] in g;
    }
    assert IsFirstMaximum(offers, k);
  }

  /** Every key in `keys` has a non-empty group in `offers`. */
  ghost predicate AllGroupsNonEmpty(offers: seq<InvoiceTuple>, keys: seq<InvoiceId>) {
    keys != [] ==> Group(offers, keys[0]) != [] && AllGroupsNonEmpty(offers, keys[1..])
  }

  /** The group keys of `offers` all have non-empty groups. */
  lemma {:induction false} KeysHaveGroups(offers: seq<InvoiceTuple>, keys: seq<InvoiceId>)
    requires forall id :: id in keys ==> id in InvoiceIds(offers)
    ensures AllGroupsNonEmpty(offers, keys)
  {
    if keys != [] {
      assert keys[0] in keys;
      assert forall id :: id in keys[1..] ==> id in keys;
      KeysHaveGroups(offers, keys[1..]);
    }
  }

  /** Over keys whose groups are all non-empty, there is one pick per key. */
  lemma {:induction false} BestOfGroupsAligned(offers: seq<InvoiceTuple>, keys: seq<InvoiceId>)
    requires AllGroupsNonEmpty(offers, keys)
    ensures |BestOfGroups(offers, keys)| == |keys|
  {
    if keys != [] {
      BestOfNonEmptyGroup(Group(offers, keys[0]));
      BestOfGroupsStep(offers, keys);
      BestOfGroupsAligned(offers, keys[1..]);
    }
  }

  /** Over such keys, the `i`-th pick is the pick of the `i`-th key's group. */
  lemma {:induction false} BestOfGroupsAt(offers: seq<InvoiceTuple>, keys: seq<InvoiceId>, i: nat)
    requires AllGroupsNonEmpty(offers, keys)
    requires i < |keys|
    ensures i < |BestOfGroups(offers, keys)| && Some(BestOfGroups(offers, keys)[i]) == BestOfGroup(Group(offers, keys[i]))
  {
    BestOfNonEmptyGroup(Group(offers, keys[0]));
    BestOfGroupsStep(offers, keys);
    if i > 0 {
      BestOfGroupsAt(offers, keys[1..], i - 1);
      assert keys[1..][i - 1] == keys[i];
    }
  }

  /** The reduction has one pick per group key, the pick of that key's group. */
  lemma SelectionAligned(offers: seq<InvoiceTuple>)
    ensures |SelectBestPerInvoice(offers)| == |GroupKeys(offers)|
    ensures forall i :: 0 <= i < |GroupKeys(offers)| ==>
      Some(SelectBestPerInvoice(offers)[i]) == BestOfGroup(Group(offers, GroupKeys(offers)[i]))
  {
    var keys := GroupKeys(offers);
    KeysHaveGroups(offers, keys);
    BestOfGroupsAligned(offers, keys);
    forall i | 0 <= i < |keys|
      ensures Some(SelectBestPerInvoice(offers)[i]) == BestOfGroup(Group(offers, keys[i]))
    {
      BestOfGroupsAt(offers, keys, i);
    }
  }

  /** The pick at position `i` is for the invoice of the `i`-th group key. */
  lemma PickAt(offers: seq<InvoiceTuple>, i: nat)
    requires i < |GroupKeys(offers)|
    ensures |SelectBestPerInvoice(offers)| == |GroupKeys(offers)|
    ensures Some(SelectBestPerInvoice(offers)[i]) == BestOfGroup(Group(offers, GroupKeys(offers)[i]))
    ensures SelectBestPerInvoice(offers)[i].invoiceId == GroupKeys(offers)[i]
  {
    var keys := GroupKeys(offers);
    SelectionAligned(offers);
    BestOfNonEmptyGroup(Group(offers, keys[i]));
  }

  /** One step of `BestOfGroups` when the first key's group yields a pick. */
  lemma BestOfGroupsStep(offers: seq<InvoiceTuple>, keys: seq<InvoiceId>)
    requires keys != [] && BestOfGroup(Group(offers, keys[0])).Some?
    ensures BestOfGroups(offers, keys)
            == [BestOfGroup(Group(offers, keys[0])).value] + BestOfGroups(offers, keys[1..])
  {
  }

  /**
   * The all-purchasers reduction returns exactly one offer per invoice id of its input, and no
   * other ids.
   */
  lemma SelectBestPerInvoiceIds(offers: seq<InvoiceTuple>)
    ensures var r := SelectBestPerInvoice(offers);
            && (forall i, j :: 0 <= i < j < |r| ==> r[i].invoiceId != r[j].invoiceId)
            && InvoiceIds(r) == InvoiceIds(offers)
  {
    var keys := GroupKeys(offers);
    var r := SelectBestPerInvoice(offers);
    PicksFollowKeys(offers, keys, r);
  }

  /** Picks aligned with the distinct group keys carry distinct ids, and exactly the input's ids. */
  lemma PicksFollowKeys(offers: seq<InvoiceTuple>, keys: seq<InvoiceId>, r: seq<InvoiceTuple>)
    requires keys == GroupKeys(offers) && r == SelectBestPerInvoice(offers)
    ensures forall i, j :: 0 <= i < j < |r| ==> r[i].invoiceId != r[j].invoiceId
    ensures InvoiceIds(r) == InvoiceIds(offers)
  {
    SelectionAligned(offers);
    forall i | 0 <= i < |keys| ensures r[i].invoiceId == keys[i] {
      PickAt(offers, i);
    }
    IdsFollowKeys(r, keys, InvoiceIds(offers));
  }

  /** Offers whose ids are, position by position, distinct keys listing `ids` have distinct ids, and exactly `ids`. */
  lemma IdsFollowKeys(r: seq<InvoiceTuple>, keys: seq<InvoiceId>, ids: set<InvoiceId>)
    requires |r| == |keys| && forall i :: 0 <= i < |keys| ==> r[i].invoiceId == keys[i]
    requires forall i, j :: 0 <= i < j < |keys| ==> keys[i] != keys[j]
    requires forall id :: id in keys <==> id in ids
    ensures forall i, j :: 0 <= i < j < |r| ==> r[i].invoiceId != r[j].invoiceId
    ensures InvoiceIds(r) == ids
  {
    forall id | id in InvoiceIds(r) ensures id in ids {
      var t :| t in r && t.invoiceId == id;
      var i :| 0 <= i < |r| && r[i] == t;
      assert keys[i] in keys;
    }
    forall id | id in ids ensures id in InvoiceIds(r) {
      var i :| 0 <= i < |keys| && keys[i] == id;
      assert r[i] in r;
    }
  }

  /** Each pick of the reduction is an input offer with its invoice's largest amount, the first such in input order. */
  lemma SelectBestPerInvoiceIsFirstMaximum(offers: seq<InvoiceTuple>, t: InvoiceTuple)
    requires t in SelectBestPerInvoice(offers)
    ensures exists k :: IsFirstMaximum(offers, k) && offers[k] == t
  {
    var keys := GroupKeys(offers);
    var r := SelectBestPerInvoice(offers);
    SelectionAligned(offers);
    var i :| 0 <= i < |r| && r[i] == t;
    BestOfGroupIsFirstMaximum(offers, keys[i]);
  }

  /** Every pick of the reduction is an input offer carrying its invoice's largest amount. */
  lemma SelectBestPerInvoiceIsMaximum(offers: seq<InvoiceTuple>, t: InvoiceTuple)
    requires t in SelectBestPerInvoice(offers)
    ensures t in offers && MaxAmount(Group(offers, t.invoiceId)) == Some(t.earlyPaymentAmount)
  {
    var keys := GroupKeys(offers);
    var r := SelectBestPerInvoice(offers);
    SelectionAligned(offers);
    var i :| 0 <= i < |r| && r[i] == t;
    BestOfGroupIsFirstMaximum(offers, keys[i]);
  }

  /** Amounts 9990, 9995 and 9980 offered for one invoice: the 9995 offer wins. */
  lemma ThreePurchasersExample(a: InvoiceTuple, b: InvoiceTuple, c: InvoiceTuple)
    requires a.invoiceId == b.invoiceId == c.invoiceId
    requires a.earlyPaymentAmount == 9990 && b.earlyPaymentAmount == 9995 && c.earlyPaymentAmount == 9980
    ensures SelectBestPerInvoice([a, b, c]) == [b]
  {
    var id := a.invoiceId;
    var offers := [a, b, c];
    SingleInvoiceKeys(a, b, c);
    GroupOfOneInvoice(offers, id);
    ThreeOffersBest(a, b, c);
    BestOfGroupsStep(offers, [id]);
    assert [id][1..] == [];
  }

  lemma ThreeOffersBest(a: InvoiceTuple, b: InvoiceTuple, c: InvoiceTuple)
    requires a.earlyPaymentAmount == 9990 && b.earlyPaymentAmount == 9995 && c.earlyPaymentAmount == 9980
    ensures BestOfGroup([a, b, c]) == Some(b)
  {
    var offers := [a, b, c];
    assert MaxAmount(offers) == Some(9995) by {
      assert b in offers;
    }
    FindFirstStep(a, [b, c], 9995);
    FindFirstStep(b, [c], 9995);
    assert [a] + [b, c] == offers && [b] + [c] == [b, c];
  }

  lemma SingleInvoiceKeys(a: InvoiceTuple, b: InvoiceTuple, c: InvoiceTuple)
    requires a.invoiceId == b.invoiceId == c.invoiceId
    ensures GroupKeys([a, b, c]) == [a.invoiceId]
  {
    assert [a][..0] == [] && [a, b][..1] == [a] && [a, b, c][..2] == [a, b];
    assert GroupKeys([a]) == [a.invoiceId];
    assert GroupKeys([a, b]) == [a.invoiceId];
  }
}
