/** Names shared by the tables: optional values, stock keys and the clock. */
module Types {

  datatype Option<+T> = None | Some(value: T)

  /** The four stock buckets; text outside them is `None` where a command parses it. */
  datatype Bucket = Available | Damaged | Quarantine | InTransit

  datatype MovementType = Receipt | Sale | Return | Damage | Adjustment | TransferOut | TransferIn

  /** The unique key of a stock_balances row. */
  datatype Key = Key(store: string, product: string, bucket: Bucket)

  /** Texts in a row: what a caller gave, or one of the messages the code composes. */
  datatype Text =
    | Given(text: string)
    | DispatchOf(transfer: string) | ReceiptOf(transfer: string) | CancellationOf(transfer: string)
    | ToStore(store: string) | FromStore(store: string) | StockRestored
    | DeletedBeforeSync | NotParsed | NoReceipt | PushFailed | RejectedByServer(reason: Reason)

  /** The validation messages after which a rejection is final. */
  datatype Complaint =
    | TransactionIdRequired | StoreIdRequired | ProductIdRequired | UserIdNotPositive | DeviceIdRequired
    | MovementTypeRequired | ZeroQuantity | UnknownMovementType

  /** A rejection reason: text that starts, in any letter case, with one of those messages, any other text,
      or the standard text that stands for none. */
  datatype Reason = Validation(complaint: Complaint, rest: string) | Other(text: string) | Unstated

  function Note(given: Option<string>): Option<Text> {
    if given.Some? then Some(Given(given.value)) else None
  }

  /** Whole seconds since the epoch stand for the fixed-width UTC strings of the source. */
  type Time = int

  const SECONDS_PER_DAY := 86400

  /** The UTC date of a moment: SQLite's date('now') and the first ten characters of a timestamp. */
  function Day(now: Time): int {
    now / SECONDS_PER_DAY
  }

  /** True of a string that `trim` would leave empty (ASCII white space). */
  predicate IsBlank(s: string) {
    forall i | 0 <= i < |s| :: s[i] in {' ', '\t', '\n', '\r'}
  }

  predicate NoDuplicates<T(==)>(s: seq<T>) {
    forall i, j | 0 <= i < j < |s| :: s[i] != s[j]
  }
}
