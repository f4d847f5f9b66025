/** The record types of the point-of-sale domain, one datatype per record,
    plus the two small wrappers the stores need: an optional value (a
    TypeScript optional property or `undefined`) and a patch field (a key
    that a shallow-merge update either carries or leaves out). */
module Types {

  datatype Option<+T> = None | Some(value: T) {
    /** The value, or `default` when absent (the `??` operator). */
    function GetOr(default: T): T {
      match this
      case Some(v) => v
      case None => default
    }
  }

  /** One field of a `Partial<...>` update: `Keep` when the key is not in
      the update object, `Set(v)` when it is (with `v` possibly absent for
      an optional field). */
  datatype Patch<+T> = Keep | Set(value: T) {
    function Apply(current: T): T {
      match this
      case Keep => current
      case Set(v) => v
    }
  }

  datatype SaleStatus = Draft | Paid

  datatype PaymentMethod = Cash | Card

  datatype Addon = Addon(id: string, name: string, priceCents: int)

  datatype Product = Product(
    id: string,
    name: string,
    sku: string,
    priceCents: int,
    category: Option<string>,
    addons: Option<seq<Addon>>)

  datatype LineItem = LineItem(
    id: string,
    productId: string,
    name: string,
    unitPriceCents: int,
    qty: int,
    modifiers: Option<seq<Addon>>)

  datatype Payment = Payment(paymentMethod: PaymentMethod, amountCents: int, paidAt: int)

  datatype Sale = Sale(
    id: string,
    status: SaleStatus,
    createdAt: int,
    updatedAt: int,
    items: seq<LineItem>,
    payment: Option<Payment>,
    note: Option<string>)

  // Keys and amounts, as function values for the generic list helpers.

  function AddonId(a: Addon): string { a.id }
  function AddonPrice(a: Addon): int { a.priceCents }
  function ProductId(p: Product): string { p.id }
  function LineId(l: LineItem): string { l.id }
  function LineQty(l: LineItem): int { l.qty }
  function LineAmount(l: LineItem): int { l.unitPriceCents * l.qty }
  function SaleId(s: Sale): string { s.id }
}
