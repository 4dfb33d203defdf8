/** The tables, requests and replies of the store-credit ledger.
    Columns that no modelled rule reads (names, descriptions, the acting user) are absent. */
module Domain {

  /** A UUID. Random UUIDs are carried by the request that draws them; the order is the
      lexicographic order that `mergeCustomers` compares. */
  type Uuid = nat

  const MAX_AMOUNT_CENTS := 2_000_000_000
  const INT4_MAX := 0x7FFF_FFFF

  /** What fits a 32-bit `int` column; saving anything else fails. */
  predicate Int4(n: int) {
    -INT4_MAX - 1 <= n <= INT4_MAX
  }

  datatype Option<+T> = None | Some(value: T)

  datatype TxType = DEBT | PAYMENT | REVERSAL | INFLATION_ADJUSTMENT | FORGIVENESS

  datatype PaymentMethod = CASH | TRANSFER

  /** One row of `transactions`. */
  datatype Row = Row(
    id: Uuid, tenant: Uuid, customer: Uuid, kind: TxType, amount: int,
    paidBy: Option<PaymentMethod>, group: Option<Uuid>, key: Uuid,
    reverses: Option<Uuid>, reversed: bool, shift: Option<Uuid>, createdAt: int)

  /** One row of `customers`, stored under its id. */
  datatype Customer = Customer(
    tenant: Uuid, balance: int, limit: int, active: bool,
    phone: Option<string>, dni: Option<string>, key: Option<Uuid>)

  /** One row of `idempotent_batch_operations`, stored under (tenant, key). */
  datatype Batch = Batch(affected: nat, total: int)

  datatype ShiftStatus = OPEN | CLOSED_OK | CLOSED_WITH_DISCREPANCY

  /** One row of `cash_register_logs`. */
  datatype Shift = Shift(
    id: Uuid, tenant: Uuid, openedAt: int, closedAt: Option<int>, opening: int,
    expected: Option<int>, actual: Option<int>, discrepancy: Option<int>,
    note: Option<string>, status: ShiftStatus)

  /** The cash semaphore column of `tenants`. */
  datatype Tenant = Tenant(activeShift: Option<Uuid>)

  datatype Store = Store(
    tenants: map<Uuid, Tenant>,
    customers: map<Uuid, Customer>,
    ledger: seq<Row>,
    batches: map<(Uuid, Uuid), Batch>,
    shifts: seq<Shift>)

  /** The percentage of a batch; `error` is the floating-point error of its product with a balance
      before it is rounded. */
  datatype Rate = Rate(percentage: real, error: int -> real)

  /** The customer a batch visits next, with the row id and key drawn for it. */
  datatype Slot = Slot(customer: Uuid, rowId: Uuid, rowKey: Uuid)

  datatype Request =
    | RegisterDebt(customer: Uuid, amount: int, key: Uuid, rowId: Uuid)
    | RegisterPayment(customer: Uuid, amount: int, paidBy: Option<PaymentMethod>, key: Uuid, rowId: Uuid)
      /** `drift` is the floating-point error of the prorated product before it is rounded. */
    | RegisterMixed(customer: Uuid, total: int, cash: int, transfer: int, key: Uuid, drift: real,
                    cashId: Uuid, transferId: Uuid, transferKey: Uuid, groupId: Uuid)
    | Forgive(customer: Uuid, key: Uuid, rowId: Uuid)
    | Reverse(target: Uuid, key: Uuid, rowId: Uuid)
      /** `slots` is the order in which the unordered SELECT returns the tenant's customers. */
    | Inflate(rate: Rate, key: Uuid, slots: seq<Slot>)
    | CreateCustomer(id: Uuid, newLimit: Option<int>, phone: Option<string>, dni: Option<string>, newKey: Option<Uuid>)
    | SetLimit(customer: Uuid, limit: int)
    | ToggleBlock(customer: Uuid)
    | Merge(primary: Uuid, secondary: Uuid)
    | OpenTurn(opening: Option<int>, shiftId: Uuid)
    | CloseTurn(actual: int, note: Option<string>)

  /** A request as the services receive it: the caller's tenant, the clock, the DTO. */
  datatype Env = Env(tenant: Uuid, now: int, request: Request)

  datatype Error =
    | NotFound | Blocked | OverLimit | NoDebt | SumMismatch | AlreadyReversed
    | SelfMerge | PrimaryMissing | SecondaryMissing | PhoneTaken | DniTaken
    | TurnAlreadyOpen | NoOpenTurn | ShiftMissing | NoteRequired | DbError

  datatype Reply =
    | Rejected(error: Error)
    | Posted(row: Row)
    | PostedPair(cash: Row, transfer: Row)
    | BatchApplied(affected: nat, total: int)
    | CustomerSaved(id: Uuid, saved: Customer)
    | ShiftSaved(shift: Shift)

  datatype Outcome = Outcome(store: Store, reply: Reply)

  function Min(a: int, b: int): int {
    if a <= b then a else b
  }

  function Max(a: int, b: int): int {
    if a >= b then a else b
  }
}
