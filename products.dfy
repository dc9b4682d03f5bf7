/** The product record as the create handler builds it, and the view of it that
    leaves the service: every stored field except the password. */
module Products {

  /** Milliseconds since the epoch, as read from the clock (`new Date()`). */
  type Time = nat

  datatype Status = ForSale | SoldOut

  function StatusName(s: Status): string
  {
    match s
    case ForSale => "FOR_SALE"
    case SoldOut => "SOLD_OUT"
  }

  /** A stored product. `id` is the string form of the store-assigned identifier. */
  datatype Product = Product(
    id: string,
    order: nat,
    name: string,
    description: string,
    manager: string,
    password: string,
    status: Status,
    createdAt: Time,
    updatedAt: Time)

  /** What a response carries for one product: the password is not a field of it. */
  datatype ProductView = ProductView(
    id: string,
    order: nat,
    name: string,
    description: string,
    manager: string,
    status: Status,
    createdAt: Time,
    updatedAt: Time)

  /** Drop the password; every other field passes through unchanged. */
  function ViewOf(p: Product): (v: ProductView)
    ensures v.id == p.id && v.order == p.order && v.name == p.name
    ensures v.description == p.description && v.manager == p.manager
    ensures v.status == p.status && v.createdAt == p.createdAt && v.updatedAt == p.updatedAt
  {
    ProductView(p.id, p.order, p.name, p.description, p.manager, p.status, p.createdAt, p.updatedAt)
  }

  function ViewsOf(ps: seq<Product>): (vs: seq<ProductView>)
    ensures |vs| == |ps|
    ensures forall i :: 0 <= i < |ps| ==> vs[i] == ViewOf(ps[i])
  {
    seq(|ps|, i requires 0 <= i < |ps| => ViewOf(ps[i]))
  }

  /** The view does not depend on the password: two products that differ only in
      their password are presented identically. */
  lemma ViewIgnoresPassword(p: Product, otherPassword: string)
    ensures ViewOf(p.(password := otherPassword)) == ViewOf(p)
  {
  }
}
