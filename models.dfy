/** The request records of the invoice API (models.py): plain values with
    no behaviour of their own. Amounts and rates are exact reals. */
module Models {
  import opened Wrappers

  datatype Address = Address(street: string, zipCode: string, city: string, countryCode: string)

  datatype Party = Party(
    name: string,
    address: Address,
    vatId: Option<string>,
    siret: Option<string>,
    email: Option<string>)

  /** One invoice line; `vatRate` is a percentage, 20.0 meaning 20 %. */
  datatype LineItem = LineItem(description: string, quantity: real, unitPrice: real, vatRate: real)

  datatype Date = Date(year: int, month: nat, day: nat)

  datatype InvoiceRequest = InvoiceRequest(
    invoiceNumber: string,
    date: Date,
    seller: Party,
    buyer: Party,
    items: seq<LineItem>,
    currency: string)

  /** The default a request gets when it names no currency. */
  const DEFAULT_CURRENCY := "EUR"
}
