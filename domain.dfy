/** The transaction record read from the `Transaction` table. */
module Domain {
  import opened Wrappers

  /** A `DateTime` is compared by its tick count; the model keeps only that count. */
  type Ticks = int

  /**
   * One row of the `Transaction` table. Nullable strings are `Option<string>`;
   * `decimal` amounts are exact `real`s.
   */
  datatype Transaction = Transaction(
    transactionId: int,
    idApi: int,
    document: Option<string>,
    reference: Option<string>,
    product: Option<string>,
    totalAmount: real,
    realAmount: real,
    incomeAmount: real,
    returnAmount: real,
    description: Option<string>,
    idStateTransaction: int,
    stateTransaction: Option<string>,
    dateCreated: Ticks,
    dateUpdated: Ticks
  )
}
