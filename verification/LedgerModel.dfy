/** The tables of the FastAPI back end (app/models.py), its requests and its responses. */
module LedgerModel {
  import opened Common
  import opened BusinessDay
  import opened WifiPolicy
  import opened WifiPass

  /** The key of everything a customer has in one store on one business day. */
  datatype Account = Account(store: Id, customer: Id, day: Day)

  datatype Product = Product(store: Id, price: int, active: bool)

  datatype RewardTier = RewardTier(id: Id, store: Id, threshold: int)

  datatype Benefit = Benefit(tier: Id, dayPass: bool)

  /** What no modelled step edits. Tiers are listed by sort order and threshold, the order the code reads them in. */
  datatype Catalog = Catalog(products: map<Id, Product>, tiers: seq<RewardTier>, benefits: map<Id, Benefit>) {
    predicate Valid() {
      forall i, j :: 0 <= i < j < |tiers| ==> tiers[i].id != tiers[j].id
    }
  }

  datatype Store = Store(clock: Clock, policy: Policy, policyVersion: int)

  datatype OrderStatus = Paid | PartiallyRefunded | Refunded

  datatype Order = Order(
    account: Account,
    externalId: Id,
    total: int,
    refunded: int,
    wifiMinutes: int,
    status: OrderStatus,
    paidAt: Time)

  datatype Balance = Balance(total: int, version: int)

  /** One grant per account and tier; its coupon and its redemption share the key. */
  datatype GrantKey = GrantKey(account: Account, tier: Id)

  datatype GrantStatus = AwaitingChoice | Fulfilled | GrantRevoked

  datatype CouponStatus = Available | Redeemed | CouponExpired | CouponRevoked

  datatype Coupon = Coupon(benefit: Id, status: CouponStatus, expiresAt: Time)

  /** An immediate reward, waiting for an order or consumed by one. */
  datatype Redemption = Redemption(grant: GrantKey, benefit: Id, order: Option<Id>)

  datatype OrderItem = OrderItem(product: Id, quantity: int, unitPrice: Option<int>)

  /** `customer` is the key derived from the member or phone as written in `contact`, if either was given. */
  datatype OrderRequest = OrderRequest(
    store: Id,
    externalId: Id,
    customer: Option<Id>,
    contact: string,
    items: seq<OrderItem>,
    total: int,
    paidAt: Time)

  datatype RefundRequest = RefundRequest(store: Id, amount: Option<int>, reason: Id)

  datatype Response =
    | OrderCreated(order: Id, day: Day, dailyTotal: int, newTiers: seq<Id>, applied: Option<GrantKey>, wifiPass: Pass)
    | OrderRefunded(order: Id, status: OrderStatus, refunded: int, amount: int, dailyTotal: int,
                    revokedTiers: set<Id>, minutesRevoked: int, pass: Option<Pass>)
    | RewardChosen(grant: GrantKey, benefit: Id, couponIssued: bool)
    | CouponUsed(coupon: GrantKey, benefit: Id)
    | CouponsListed
    | PassShown(shown: Pass)
    | PassesExpired(count: int)
    | PolicyPublished(version: int)

  datatype Outcome = Done(code: int, response: Response) | Rejected(code: int)

  /** Idempotency keys are scoped; request hashes are taken to be injective, so the request itself is kept. */
  datatype Scope = PosOrderScope(store: Id) | RefundScope(order: Id)

  datatype Request = OrderBody(order: OrderRequest) | RefundBody(refund: RefundRequest)

  datatype Record = Record(request: Request, code: int, response: Response)

  type Records = map<(Scope, string), Record>

  /** Calls made to the network controller on behalf of one pass; a pass without a session is revoked as None. */
  datatype NetworkCall = Authorize(session: Id) | Revoke(reference: Option<Id>)

  type CallLog = map<Account, seq<NetworkCall>>

  datatype State = State(
    stores: map<Id, Store>,
    orders: map<Id, Order>,
    balances: map<Account, Balance>,
    passes: map<Account, Pass>,
    grants: map<GrantKey, GrantStatus>,
    coupons: map<GrantKey, Coupon>,
    redemptions: seq<Redemption>,
    records: Records,
    calls: CallLog)

  datatype Result = Result(state: State, outcome: Outcome)

  function Reject(s: State, code: int): Result {
    Result(s, Rejected(code))
  }

  function Calls(log: CallLog, a: Account): seq<NetworkCall> {
    if a in log then log[a] else []
  }

  function Call(log: CallLog, a: Account, call: NetworkCall): CallLog {
    log[a := Calls(log, a) + [call]]
  }
}
