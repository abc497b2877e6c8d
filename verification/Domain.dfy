/** Identifiers and small value types shared by every module. */
module Domain {

  datatype Option<+T> = None | Some(value: T)

  datatype Result<+T, +E> = Ok(value: T) | Err(error: E)

  // Opaque identifiers. Only equality and freshness matter for most of them; expense ids are
  // UUIDs, whose database order is the numeric order of their 128 bits.
  type UserId = nat
  type ReceiptId = nat
  type ExpenseId = nat
  type BlobKey = nat
  type MessageId = string
  type HistoryId = nat

  // A NUMERIC(12, 2) column holds fewer cents than this.
  const AMOUNT_LIMIT: int := 1_000_000_000_000

  datatype Status = Uploaded | Processing | Parsed | Categorised | Failed

  datatype Category =
    | FoodDining | Groceries | Transportation | Shopping | Entertainment | Utilities
    | Healthcare | Housing | Travel | Education | Personal | Other
}
