/**
 * The persistent entities the financing core reads and writes, and the offer tuple
 * the two repository queries return. Identifiers are plain integers (the source's
 * `long` ids); dates are integer day numbers.
 */
module Entities {
  import opened Wrappers

  type InvoiceId = int
  type PurchaserId = int
  type CreditorId = int
  type DebtorId = int
  type SettingsId = int

  /**
   * The financing attached to an invoice once a purchaser has been chosen.
   * `purchaser` is optional: the service leaves it unset when the purchaser lookup misses.
   */
  datatype Financing = Financing(
    purchaser: Option<PurchaserId>,
    earlyPaymentAmountInCents: int,
    financingRateInBps: real,
    daysToFinance: int)

  /** An invoice; `financing == None` means the invoice has not been financed yet. */
  datatype Invoice = Invoice(
    id: InvoiceId,
    creditor: CreditorId,
    debtor: Option<DebtorId>,
    financing: Option<Financing>,
    maturityDay: int,
    valueInCents: int)

  /** A creditor and the largest financing rate it accepts (inclusive). */
  datatype Creditor = Creditor(id: CreditorId, maxFinancingRateInBps: int)

  /** A purchaser and the shortest financing term it accepts (inclusive). */
  datatype Purchaser = Purchaser(id: PurchaserId, minimumFinancingTermInDays: int)

  /**
   * Purchaser financing settings: the annual rate a creditor agreed with a group of
   * purchasers (the join table linking settings to purchasers is `purchasers`).
   */
  datatype FinancingSettings = FinancingSettings(
    id: SettingsId,
    creditor: CreditorId,
    annualRateInBps: int,
    purchasers: seq<PurchaserId>)

  /** One financing offer: what both repository queries return, one row per (invoice, purchaser). */
  datatype InvoiceTuple = InvoiceTuple(
    invoiceId: InvoiceId,
    purchaserId: PurchaserId,
    daysToFinance: int,
    financingRate: real,
    earlyPaymentAmount: int)
}
