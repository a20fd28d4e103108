/**
 * The grid-space document of the layout-based marketplace: a cell of an
 * admin-defined layout that moves through the statuses available,
 * reserved, purchased and bidding, together with the two schema-only
 * documents the handlers create beside it, payment transactions and
 * layouts.
 */
module GridSpaces {
  import opened Wrappers

  datatype SpaceStatus = Available | Reserved | Purchased | InBidding

  /** A grid space: the paths the schema declares.  Strict mode drops any
    * other path a handler assigns (the payment handler's display dates),
    * so such a path is never stored. */
  datatype GridSpace = GridSpace(
    x: int,
    y: int,
    width: int,
    height: int,
    price: Option<real>,
    status: SpaceStatus,
    owner: Option<nat>,
    image: Option<string>,
    clickUrl: Option<string>,
    impressions: int,
    clicks: int,
    activeBidding: Option<nat>,
    reservationExpiresAt: Option<int>,
    createdAt: int,
    updatedAt: int)

  /** The stored spelling of a status. */
  function StatusName(s: SpaceStatus): string {
    match s
    case Available => "available"
    case Reserved => "reserved"
    case Purchased => "purchased"
    case InBidding => "bidding"
  }

  /** The status a stored spelling stands for; `None` outside the enumeration. */
  function StatusOfName(n: string): (r: Option<SpaceStatus>)
    ensures r.Some? ==> StatusName(r.value) == n
  {
    if n == "available" then Some(Available)
    else if n == "reserved" then Some(Reserved)
    else if n == "purchased" then Some(Purchased)
    else if n == "bidding" then Some(InBidding)
    else None
  }

  /** Every status reads back from its spelling, so the enumeration is
    * exactly the four names. */
  lemma StatusNamesRoundTrip(s: SpaceStatus)
    ensures StatusOfName(StatusName(s)) == Some(s)
  {
  }

  /** A JavaScript string value that is truthy: present and not empty. */
  predicate Truthy(s: Option<string>) {
    s.Some? && |s.value| > 0
  }

  /** Nothing has happened to the space yet: no owner, no image or link,
    * no bidding or reservation, no counted impressions or clicks. */
  predicate Untouched(s: GridSpace) {
    s.status == Available && s.owner.None? && s.image.None? && s.clickUrl.None?
    && s.impressions == 0 && s.clicks == 0
    && s.activeBidding.None? && s.reservationExpiresAt.None?
  }

  /** `GridSpace.create({ position: { x, y }, size, price })` at time `now`:
    * every other path takes its schema default. */
  function NewSpace(x: int, y: int, width: int, height: int, price: Option<real>, now: int): (s: GridSpace)
    ensures Untouched(s)
    ensures s.x == x && s.y == y && s.width == width && s.height == height && s.price == price
    ensures s.createdAt == now && s.updatedAt == now
  {
    GridSpace(x, y, width, height, price, Available, None, None, None, 0, 0, None, None, now, now)
  }

  /** `GridSpace.create({ position: { x, y } })` with the size omitted. */
  function DefaultSizedSpace(x: int, y: int, now: int): (s: GridSpace)
    ensures s.width == 1 && s.height == 1 && s.price.None? && Untouched(s)
  {
    NewSpace(x, y, 1, 1, None, now)
  }

  datatype TxStatus = TxInitiated | TxProcessing | TxSuccess | TxFailed

  /** A payment transaction; `paymentId` is the empty string until a payment
    * is verified. */
  datatype Transaction = Transaction(
    id: nat,
    user: nat,
    gridSpaces: seq<nat>,
    amount: real,
    currency: string,
    paymentId: string,
    orderId: string,
    paymentStatus: TxStatus,
    receipt: string,
    createdAt: int)

  /** A layout: a named `rows` x `columns` grid of spaces created by an admin. */
  datatype GridLayout = GridLayout(
    name: Option<string>,
    rows: int,
    columns: int,
    isActive: bool,
    spaces: seq<nat>,
    createdBy: nat,
    createdAt: int)
}
