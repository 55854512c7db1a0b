# Invoice financing: the offer queries and the financing run, in Dafny

This project models the core of a small invoice-financing service. Creditors issue invoices to
debtors. Purchasers offer to pay an invoice early, at a discount, under the financing settings
a creditor agreed with them. A financing run finances each unfinanced invoice that has an
eligible offer, recording one of its largest offers on the invoice. In lowest-rate mode, tied
offers each set a financing in turn (the last one stays), and the invoice is saved once per
tied offer.

The model has two parts:

- **The invoice repository's two native queries** (`InvoiceRepository.java`), written as pure
  functions over the tables.
  - Both queries join every unfinanced invoice with:
    - its creditor;
    - every financing-settings row of that creditor;
    - every purchaser those settings link to.
  - Each joined row is priced:
    - days to finance = maturity day − today;
    - rate = annual rate × days / 360, in bps;
    - early-payment amount = value − round(value × rate × 0.0001).
  - A row is kept when:
    - days to finance ≥ the purchaser's minimum term;
    - the rate ≤ the creditor's maximum rate.
  - `findNotFinancedForAllPurchasers` returns every kept row.
  - `findNotFinancedForLowestRatePurchaser` returns the kept rows whose amount equals their
    invoice's largest amount.
- **The financing service** (`FinancingService.java`).
  - The in-memory reduction of the all-purchasers mode is a pure function. It groups by
    invoice, takes `max`, then the first offer with that amount.
  - The run itself is imperative. The class `FinancingStore` holds the invoice table and plays
    the database and its persistence context.
  - `Finance(mode, today)` works in these steps:
    1. Select the offers for the mode.
    2. For each offer, look up the purchaser and the invoice by id. Set a financing on the
       invoice if it was found; attach the purchaser only if it was found.
    3. Pass the found invoices to `saveAll` once.
  - The store logs the ids it looked up and the batches it saved.

What is proved:

- Each query returns exactly the offers the business rules allow. Financed invoices,
  settings of other creditors, terms that are too short and rates that are too high are all
  excluded.
- The lowest-rate query keeps exactly the maximal offers. With non-negative values, the
  lowest-rate offer is among them.
- The all-purchasers reduction returns one offer per invoice: the first offer in input order
  with the invoice's largest amount.
- Reconciling a list of offers is "last offer wins".
- One run, in either mode, finances each invoice that has eligible offers:
  - with one of its own largest-amount offers;
  - over its own term;
  - with a purchaser that exists.

  It leaves every other invoice unchanged.
- The two modes agree on which invoices get financed, for how much and for how long. They do
  not always agree on the purchaser: when offers tie, the all-purchasers mode keeps the first
  and the lowest-rate mode ends with the last.
- A second run changes nothing.

Time is a parameter: `today` and each invoice's maturity are day numbers. The order of the
table scan is not fixed. `ScanInvoices` may list the invoices in any order, and every property
holds for every order.

## Model

| member | source | states |
|---|---|---|
| `Pricing.DaysToFinance` | src/main/java/lu/crx/financing/repositories/InvoiceRepository.java:28 | `datediff(day, current_date, maturity_date)` on day numbers: today plus the days is the maturity day |
| `Pricing.FinancingRate` | src/main/java/lu/crx/financing/repositories/InvoiceRepository.java:29 | the annual rate pro-rated on a 360-day year: 360 days give the annual rate, 0 days give 0 (growth in `FinancingRateMonotone`) |
| `Pricing.EarlyPaymentAmount` | src/main/java/lu/crx/financing/repositories/InvoiceRepository.java:43 | value − round(value × rate × 0.0001); its meaning is given by `EarlyPaymentAmountIsExactDiscountRounded` and `EarlyPaymentAmountAntitone` |
| `Pricing.Round` | src/main/java/lu/crx/financing/repositories/InvoiceRepository.java:43 | the rounded discount is within half a cent of the exact one (`round` to the nearest integer) |
| `Pricing.EarlyPaymentAmountIsExactDiscountRounded` | src/main/java/lu/crx/financing/repositories/InvoiceRepository.java:43 | the early-payment amount deducts from the value the discount value × rate bps, within half a cent |
| `Pricing.FinancingRateMonotone` | src/main/java/lu/crx/financing/repositories/InvoiceRepository.java:29 | the pro-rated rate grows with the annual rate and with the days to finance |
| `Pricing.EarlyPaymentAmountAntitone` | src/main/java/lu/crx/financing/repositories/InvoiceRepository.java:56-63 | for a non-negative value a lower rate never gives a smaller early-payment amount, so the largest amount is the lowest rate's |
| `Pricing.ConcreteScenario` | src/main/java/lu/crx/financing/repositories/InvoiceRepository.java:28-43 | 1,000,000 cents over 30 days at 240 bps a year: rate 20 bps, early payment 998,000 cents |
| `OfferGroups.Group` | src/main/java/lu/crx/financing/repositories/InvoiceRepository.java:90-94 | a group holds exactly the offers for its invoice and is empty exactly when no offer names the invoice |
| `OfferGroups.MaxAmount` | src/main/java/lu/crx/financing/repositories/InvoiceRepository.java:92 | `max` is absent exactly for no offers, is some offer's amount and bounds every amount |
| `OfferGroups.GroupAppend` | src/main/java/lu/crx/financing/services/FinancingService.java:76 | grouping the concatenation of two offer lists concatenates their groups |
| `OfferGroups.GroupOfOneInvoice` | src/main/java/lu/crx/financing/services/FinancingService.java:76 | offers all for one invoice form that invoice's whole group, in order |
| `InvoiceRepository.JoinPurchasers` | src/main/java/lu/crx/financing/repositories/InvoiceRepository.java:33-34 | a settings row yields a row for exactly each linked purchaser that exists in the purchaser table |
| `InvoiceRepository.JoinSettings` | src/main/java/lu/crx/financing/repositories/InvoiceRepository.java:32-34 | an invoice is joined with exactly the settings rows of its own creditor and their existing linked purchasers |
| `InvoiceRepository.JoinedRowsOf` | src/main/java/lu/crx/financing/repositories/InvoiceRepository.java:30-35 | one invoice's joined rows, none when it is financed; characterized by `OffersOfCharacterization` and `OffersOfInvoice` |
| `InvoiceRepository.JoinedRows` | src/main/java/lu/crx/financing/repositories/InvoiceRepository.java:22-37 | the `invoices` expression over a scan, invoice by invoice; characterized by `AllPurchasersCharacterization` and `GroupOfAllPurchasers` |
| `InvoiceRepository.IsEligible` | src/main/java/lu/crx/financing/repositories/InvoiceRepository.java:45-46 | minimum term and maximum rate, both inclusive; characterized by `OffersOfCharacterization` |
| `InvoiceRepository.EligibleTuples` | src/main/java/lu/crx/financing/repositories/InvoiceRepository.java:38-46 | the eligible offers are exactly the joined rows meeting the minimum term and the maximum rate, priced |
| `InvoiceRepository.FindNotFinancedForAllPurchasers` | src/main/java/lu/crx/financing/repositories/InvoiceRepository.java:21-54 | the all-purchasers query; `AllPurchasersCharacterization` states exactly which offers it returns |
| `InvoiceRepository.FindNotFinancedForLowestRatePurchaser` | src/main/java/lu/crx/financing/repositories/InvoiceRepository.java:64-106 | the lowest-rate query; `LowestRateRowsAreMaxima` states exactly which rows it returns, ties included |
| `InvoiceRepository.KeepInvoiceMaxima` | src/main/java/lu/crx/financing/repositories/InvoiceRepository.java:95-103 | a row is kept exactly when its amount equals its invoice's largest eligible amount |
| `InvoiceRepository.OffersOfCharacterization` | src/main/java/lu/crx/financing/repositories/InvoiceRepository.java:22-46 | an invoice's offers are exactly its unfinanced, own-creditor, linked-purchaser, term- and rate-eligible combinations |
| `InvoiceRepository.OffersOfInvoice` | src/main/java/lu/crx/financing/repositories/InvoiceRepository.java:23-35 | a financed invoice has no offers; every offer names the invoice and an existing purchaser and is priced over the invoice's own term |
| `InvoiceRepository.AllPurchasersCharacterization` | src/main/java/lu/crx/financing/repositories/InvoiceRepository.java:21-54 | the all-purchasers query returns exactly the eligible offers of the scanned invoices |
| `InvoiceRepository.FinancedInvoicesYieldNoOffers` | src/test/java/lu/crx/financing/repositories/InvoiceRepositoryTest.java:102-121 | when every invoice is financed both queries return nothing |
| `InvoiceRepository.LowestRateRowsAreMaxima` | src/main/java/lu/crx/financing/repositories/InvoiceRepository.java:64-106 | a lowest-rate row is exactly an eligible offer with no larger amount for its invoice; ties all stay |
| `InvoiceRepository.LowestRateCoversSameInvoices` | src/main/java/lu/crx/financing/repositories/InvoiceRepository.java:95-103 | the lowest-rate query names exactly the invoices the all-purchasers query names |
| `InvoiceRepository.LowestRateIncludesCheapestOffer` | src/main/java/lu/crx/financing/repositories/InvoiceRepository.java:56-63 | over unique ids and non-negative values, an offer with its invoice's lowest rate is a lowest-rate row |
| `InvoiceRepository.GroupOfAllPurchasers` | src/main/java/lu/crx/financing/repositories/InvoiceRepository.java:30-35 | with unique ids, the all-purchasers offers for a scanned invoice are exactly that invoice's own offers |
| `OfferSelection.GroupKeys` | src/main/java/lu/crx/financing/services/FinancingService.java:76 | the grouping keys are distinct and are exactly the invoice ids of the offers |
| `OfferSelection.FindFirstWithAmount` | src/main/java/lu/crx/financing/services/FinancingService.java:81-83 | absent exactly when no offer has the amount; otherwise the first offer that has it |
| `OfferSelection.BestOfGroup` | src/main/java/lu/crx/financing/services/FinancingService.java:77-84 | one group's `max` then `findFirst`; `BestOfGroupIsFirstMaximum` states its pick |
| `OfferSelection.SelectBestPerInvoice` | src/main/java/lu/crx/financing/services/FinancingService.java:74-88 | `getInvoicesToFinanceForAllPurchasers`; `SelectBestPerInvoiceIds` and `SelectBestPerInvoiceIsFirstMaximum` state its result |
| `OfferSelection.InvoicesToFinance` | src/main/java/lu/crx/financing/services/FinancingService.java:37-40 | the `switch (mode)`; `FinancingProperties.PicksAreMaxima` states what either mode selects |
| `OfferSelection.FirstInGroupIsFirstInInput` | src/main/java/lu/crx/financing/services/FinancingService.java:76-83 | the first match within a group is the first match for that invoice in the query's order |
| `OfferSelection.BestOfGroupIsFirstMaximum` | src/main/java/lu/crx/financing/services/FinancingService.java:77-84 | a non-empty group yields a pick: an offer for the invoice with the largest amount, earlier offers all smaller |
| `OfferSelection.SelectBestPerInvoiceIds` | src/main/java/lu/crx/financing/services/FinancingService.java:74-88 | the reduction returns one offer per invoice of its input, and no other invoices |
| `OfferSelection.SelectBestPerInvoiceIsFirstMaximum` | src/main/java/lu/crx/financing/services/FinancingService.java:77-84 | each pick is the first offer, in input order, with its invoice's largest amount |
| `OfferSelection.SelectBestPerInvoiceIsMaximum` | src/main/java/lu/crx/financing/services/FinancingService.java:78-83 | each pick is an input offer carrying its invoice's largest amount |
| `OfferSelection.ThreePurchasersExample` | src/main/java/lu/crx/financing/services/FinancingService.java:74-88 | offers of 9990, 9995 and 9980 cents for one invoice: the 9995 offer alone is picked |
| `FinancingService.FinancingFor` | src/main/java/lu/crx/financing/services/FinancingService.java:55-61 | the financing built from an offer, with the purchaser only when found; used by `ReconcileIsLastWins` |
| `FinancingService.ApplyTuple` | src/main/java/lu/crx/financing/services/FinancingService.java:54-64 | one offer's effect on the table; `FinancingStore.ReconcileOne` is proved against it |
| `FinancingService.Reconcile` | src/main/java/lu/crx/financing/services/FinancingService.java:52-68 | the offers applied in order; `ReconcileIsLastWins` states its result |
| `FinancingService.LastFor` | src/main/java/lu/crx/financing/services/FinancingService.java:53-65 | absent exactly when no offer names the invoice; otherwise the last offer naming it |
| `FinancingService.ReconcileIsLastWins` | src/main/java/lu/crx/financing/services/FinancingService.java:52-68 | reconciliation keeps the invoice ids, leaves unnamed invoices alone and gives each other invoice the last naming offer's financing |
| `FinancingService.ReconcileKeepsKeys` | src/main/java/lu/crx/financing/services/FinancingService.java:62 | setting financings keeps every invoice under its own id |
| `FinancingService.SavedIds` | src/main/java/lu/crx/financing/services/FinancingService.java:62-68 | the saved list holds only found invoices named by an offer, and every found one; it is no longer than the offer list |
| `FinancingService.SavedIdsCounts` | src/main/java/lu/crx/financing/services/FinancingService.java:62-68 | a found invoice is saved once per offer naming it (tied lowest-rate rows save it several times), a missing one never |
| `FinancingService.SavedIdsAppend` | src/main/java/lu/crx/financing/services/FinancingService.java:53-68 | the saved list follows the offers' order: the saves of a concatenation are the saves of its parts, in turn |
| `FinancingService.Upsert` | src/main/java/lu/crx/financing/services/FinancingService.java:47 | `saveAll` writes each invoice under its id, later ones last; `UpsertOfStored` and `FinancingStore.SaveAll` state its effect |
| `FinancingService.UpsertOfStored` | src/main/java/lu/crx/financing/services/FinancingService.java:47 | saving the managed invoices back changes nothing further |
| `FinancingService.FinancingStore.constructor` | src/main/java/lu/crx/financing/services/FinancingService.java:20-31 | a service over the given tables, with no lookups and no saves yet |
| `FinancingService.FinancingStore.FindInvoiceById` | src/main/java/lu/crx/financing/services/FinancingService.java:56 | the invoice stored under the id, or none; the lookup is logged |
| `FinancingService.FinancingStore.FindPurchaserById` | src/main/java/lu/crx/financing/services/FinancingService.java:55 | the purchaser stored under the id, or none; the lookup is logged |
| `FinancingService.FinancingStore.SetFinancing` | src/main/java/lu/crx/financing/services/FinancingService.java:62 | the managed invoice gets the financing; nothing else changes |
| `FinancingService.FinancingStore.SaveAll` | src/main/java/lu/crx/financing/services/FinancingService.java:47 | each invoice of the batch is written under its id and the batch is logged once |
| `FinancingService.FinancingStore.ScanInvoices` | src/main/java/lu/crx/financing/repositories/InvoiceRepository.java:30 | a scan lists every stored invoice exactly once, in some order |
| `FinancingService.FinancingStore.ReconcileOne` | src/main/java/lu/crx/financing/services/FinancingService.java:54-64 | one offer: both lookups logged; the invoice, if found, gets the offer's terms with the purchaser only if found |
| `FinancingService.FinancingStore.InvoicesToSave` | src/main/java/lu/crx/financing/services/FinancingService.java:52-69 | the invoices become the last-wins reconciliation, lookups follow the offers in order, and the found invoices are returned |
| `FinancingService.FinancingStore.Finance` | src/main/java/lu/crx/financing/services/FinancingService.java:33-50 | the run reconciles the selected offers of one table scan and saves the found invoices in a single batch |
| `FinancingProperties.PicksAreMaxima` | src/main/java/lu/crx/financing/services/FinancingService.java:37-40 | both modes select offers for the same invoices, each with its invoice's largest amount |
| `FinancingProperties.FinanceOutcome` | src/main/java/lu/crx/financing/services/FinancingService.java:33-50 | after a run every invoice is either unchanged (no eligible offer) or financed by one of its own best offers |
| `FinancingProperties.FinancedInvoiceTerms` | src/test/java/lu/crx/financing/services/FinancingServiceTest.java:41-60 | financed invoices stay as they are; one with offers gets a purchaser, the largest amount offered and its own term |
| `FinancingProperties.ModesAgree` | src/main/java/lu/crx/financing/services/FinancingService.java:71-92 | the two modes finance the same invoices for the same amounts and terms, over any two scans (not the same purchasers, see the next row) |
| `FinancingProperties.TiedOffersPickDifferentPurchasers` | src/main/java/lu/crx/financing/services/FinancingService.java:71-92 | the modes do not agree on the purchaser: two tied 998,000-cent offers for one invoice give purchaser 1 in all-purchasers mode and purchaser 2 in lowest-rate mode |
| `FinancingProperties.BestOffersAgree` | src/main/java/lu/crx/financing/services/FinancingService.java:77-83 | two picks among an invoice's largest-amount offers agree on amount and term |
| `FinancingProperties.RerunChangesNothing` | src/main/java/lu/crx/financing/repositories/InvoiceRepository.java:35 | a second run right after a first leaves every invoice as it is |
| `FinancingProperties.SingleOfferReconciliation` | src/test/java/lu/crx/financing/services/FinancingServiceMockTest.java:37-149 | no offers save an empty list; one offer saves its found invoice with its terms (purchaser only if found) or saves nothing |

## Left out

- Floating point. The rate is an exact rational (`real`), not a 32-bit `float`. The
  comparison of rate with maximum rate and the rounded amount are exact.
- Rounding of negative halves. `Round` rounds exact halves up. SQL `ROUND` rounds them away
  from zero, so the two differ only for a negative discount, which needs a negative value or
  a negative rate.
- Calendar dates. `current_date` and maturity dates are day numbers, and `datediff` is their
  difference.
- Fixed-width integers. Java `long`/`int` overflow is not modelled.
- Row order.
  - SQL: in the model, query rows come out in the nesting order of the join (scan order of invoices, then
    settings, then linked purchasers). The source fixes no row order for either query; its only
    hint is the `order by i.id, p.id` inside the first table expression
    (src/main/java/lu/crx/financing/repositories/InvoiceRepository.java:36-37, 79-80), which is
    not modelled.
  - Java grouping: `groupingBy` yields groups in `HashMap` order. `OfferSelection.GroupKeys`
    uses order of first appearance instead.
  - Every property proved here holds whatever the scan order. None depends on the order of
    groups.
- Purchaser-level agreement of the two modes. The two modes are meant to give each invoice the
  same purchaser, but the source does not when offers tie (FinancingService.java:81-83 keeps the
  first tied offer; InvoiceRepository.java:100-103 keeps all of them and FinancingService.java:62
  lets the last win). `FinancingProperties.ModesAgree` therefore promises only equal amounts
  and terms, and `FinancingProperties.TiedOffersPickDifferentPurchasers` shows the difference.
- The unit tests call `finance()` without a mode. The model reads them as lowest-rate mode.
  `FinancingProperties.SingleOfferReconciliation` states their expectations directly on the
  reconciliation.
- Persistence details. Transactions, lazy loading, the generated `Financing.id`, and the
  cascade that persists a new financing are not modelled.
  - The store's invoice map stands for both the table and the managed entities.
  - `saveAll` writes back the entities it is given.
- The non-null constraint on `Financing.purchaser` (src/main/java/lu/crx/financing/entities/Financing.java:25-26).
  The model lets a financing without purchaser be saved, as the service's unit test at
  src/test/java/lu/crx/financing/services/FinancingServiceMockTest.java:88-124 expects.
  `FinancingProperties.FinancedInvoiceTerms` shows that a run fed by either query always
  finds the purchaser.
- Logging, Spring wiring and the JPA mapping: these have no effect on the data.
- The creditor, purchaser and financing-settings entity classes and the seeding service are
  not part of this model. They are modelled only by the fields the queries read.
- `Debtor` is carried as an optional id and never read.
