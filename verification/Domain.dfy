/** The entities of one tenant: stock rows, movement lines and the documents that change them. */
module Domain {
  import opened Wrappers

  /** Surrogate keys; for documents kept in a table, the position in that table. */
  type Id = nat

  // ---------- Catalogue (read-only configuration) ----------

  datatype Product = Product(requiresBatch: bool, requiresExpiry: bool, defaultUom: string)

  datatype Policy = Policy(maxOverPct: Option<real>, maxUnderPct: Option<real>)

  datatype OutboundRule = OutboundRule(enforceFullAllocation: bool, allowPartialShipments: bool)

  /**
   * suggestCounts holds the warehouses whose policy has a count frequency; groupOrder is the order in which
   * the database lists the groups of a query grouped by stock status.
   */
  datatype Catalog = Catalog(
    products: map<Id, Product>,
    locations: map<Id, Id>,
    warehouses: set<Id>,
    policies: map<(Id, Id), Policy>,
    rules: map<Id, OutboundRule>,
    countingEnabled: bool,
    suggestCounts: set<Id>,
    groupOrder: seq<StockStatus>)

  // ---------- Stock ----------

  datatype StockStatus = Available | Reserved | Picking | InTransitInternal | Quarantine | Scrap | Blocked

  /** What a stock row and a movement line are about. */
  datatype Key = Key(product: Id, batch: Option<Id>, location: Id, uom: string)

  datatype Row = Row(key: Key, status: StockStatus, qty: real)

  datatype Batch = Batch(product: Id, code: string, expiry: Option<int>)

  // ---------- Movements ----------

  datatype MovementKind = InboundReceipt | InternalTransfer | Adjustment | OutboundShipment

  datatype Reference =
    | ReceiptRef(receipt: Id)
    | OrderRef(order: Id)
    | CountRef(count: Id)
    | ShipmentRef(shipment: Id)
    | NoRef

  /** A movement line together with the kind and reference of its header. */
  datatype Movement = Movement(
    kind: MovementKind,
    reference: Reference,
    product: Id,
    batch: Option<Id>,
    source: Option<Id>,
    target: Option<Id>,
    qty: real,
    uom: string)

  // ---------- Inbound ----------

  datatype ReceiptStatus = Draft | PartiallyReceived | Received | Cancelled

  datatype ReceiptLine = ReceiptLine(
    product: Id,
    expected: real,
    received: real,
    uom: string,
    batchCode: Option<string>,
    expiry: Option<int>,
    batch: Option<Id>)

  datatype Receipt = Receipt(warehouse: Id, status: ReceiptStatus, lines: seq<ReceiptLine>)

  // ---------- Outbound ----------

  datatype OrderStatus =
    OrderDraft | Released | PartiallyAllocated | FullyAllocated | InPicking | PartiallyPicked | Picked

  datatype OrderLine = OrderLine(product: Id, requestedQty: real, allocatedQty: real, pickedQty: real, uom: string)

  datatype Order = Order(warehouse: Id, status: OrderStatus, lines: seq<OrderLine>)

  datatype TaskStatus = TaskCreated | TaskAssigned | TaskInProgress | TaskCompleted

  datatype TaskLine = TaskLine(orderLine: Id, key: Key, toPick: real, picked: real)

  datatype Task = Task(order: Id, warehouse: Id, status: TaskStatus, lines: seq<TaskLine>)

  datatype PackedLine = PackedLine(order: Id, orderLine: Id, product: Id, batch: Option<Id>, qty: real, uom: string)

  datatype HandlingUnit = HandlingUnit(warehouse: Id, lines: seq<PackedLine>)

  datatype ShipmentStatus = Planned | Loading | Dispatched

  datatype Shipment = Shipment(warehouse: Id, status: ShipmentStatus, links: seq<(Id, Id)>)

  // ---------- Cycle counts ----------

  datatype CountStatus = CountPending | CountInProgress | CountCompleted | CountCancelled

  datatype CountLine = CountLine(key: Key, expected: real, counted: Option<real>, difference: Option<real>)

  datatype CountTask = CountTask(warehouse: Id, status: CountStatus, lines: seq<CountLine>)

  // ---------- The tenant's tables ----------

  datatype Db = Db(
    rows: seq<Row>,
    moves: seq<Movement>,
    batches: seq<Batch>,
    receipts: seq<Receipt>,
    orders: seq<Order>,
    tasks: seq<Task>,
    counts: seq<CountTask>,
    units: seq<HandlingUnit>,
    shipments: seq<Shipment>)

  const EMPTY_DB := Db([], [], [], [], [], [], [], [], [])

  /** The two exceptions a service throws; inside a transaction both roll everything back. */
  datatype Error = NotFound | BadRequest
}
