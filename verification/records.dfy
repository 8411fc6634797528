/**
 * The records the route-card engine works on: cards, their route operations,
 * per-item rows, audit-log entries and catalog operations.
 *
 * The source keeps these as loose JSON objects. Fields whose JSON value may
 * be missing or of the wrong kind are modelled explicitly: a blank quantity
 * ('') is `None`, a missing operation status is `None`, counters are plain
 * integers that the engine clamps when it reads them, and timestamps are
 * optional millisecond counts whose JavaScript truthiness (`0` is falsy) is
 * kept by `Truthy`.
 */
module Records {

  datatype Option<+T> = None | Some(value: T) {
    /** `x || d` and `x ?? d` alike when the present value is never falsy. */
    function GetOr(default: T): T {
      if Some? then value else default
    }
  }

  /** The four execution states of an operation or a card. */
  datatype Status = NotStarted | InProgress | Paused | Done

  /** The five-valued badge state used by filters; adds MIXED. */
  datatype ProcessState = PNotStarted | PInProgress | PPaused | PDone | PMixed

  /** One produced piece when a card counts per item. */
  datatype Item = Item(
    id: string,
    name: string,
    quantity: Option<int>,
    good: int,
    scrap: int,
    hold: int)

  /** One step of a card's route. Times are milliseconds. */
  datatype RouteOp = RouteOp(
    id: string,
    opId: string,
    opCode: string,
    opName: string,
    centerName: string,
    executor: string,
    additionalExecutors: seq<string>,
    plannedMinutes: int,
    order: Option<int>,
    quantity: Option<int>,
    autoCode: bool,
    status: Option<Status>,
    firstStartedAt: Option<int>,
    startedAt: Option<int>,
    lastPausedAt: Option<int>,
    finishedAt: Option<int>,
    elapsedMs: Option<int>,
    actualMs: Option<int>,
    comment: string,
    good: int,
    scrap: int,
    hold: int,
    items: seq<Item>)

  datatype Attachment = Attachment(id: string, name: string, createdAt: Option<int>)

  /** One audit-log record; old and new values are already strings. */
  datatype LogEntry = LogEntry(
    id: string,
    ts: int,
    action: string,
    objectLabel: string,
    field: Option<string>,
    targetId: Option<string>,
    oldValue: string,
    newValue: string)

  /**
   * A route card, or a group card (`isGroup`) whose children name it in
   * their `groupId`. `items` is the legacy card-level item list that only the
   * planned-quantity fallback reads.
   */
  datatype Card = Card(
    id: string,
    barcode: string,
    name: string,
    orderNo: string,
    desc: string,
    quantity: Option<int>,
    drawing: string,
    material: string,
    contractNumber: string,
    useItemList: bool,
    status: Status,
    archived: bool,
    createdAt: Option<int>,
    logs: seq<LogEntry>,
    initialSnapshot: Option<Card>,
    attachments: seq<Attachment>,
    operations: seq<RouteOp>,
    groupId: Option<string>,
    isGroup: bool,
    items: seq<Item>)

  /** An entry of the operation catalog. */
  datatype CatalogOp = CatalogOp(id: string, code: string, name: string)

  /** JavaScript truthiness of an optional timestamp: missing and 0 are falsy. */
  predicate Truthy(t: Option<int>) {
    t.Some? && t.value != 0
  }

  /** `genId(prefix)`: the time-and-random suffix is an oracle token. */
  function GenId(prefix: string, token: string): string {
    prefix + "_" + token
  }

  /** The status strings the source stores and logs. */
  function StatusName(s: Status): string {
    match s
    case NotStarted => "NOT_STARTED"
    case InProgress => "IN_PROGRESS"
    case Paused => "PAUSED"
    case Done => "DONE"
  }

  /** `op.status === s` where a missing status equals nothing. */
  predicate HasStatus(op: RouteOp, s: Status) {
    op.status == Some(s)
  }

  /** `op.status === 'NOT_STARTED' || !op.status`. */
  predicate NotStartedOrMissing(op: RouteOp) {
    op.status == None || op.status == Some(NotStarted)
  }
}
