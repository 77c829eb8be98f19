/** The in-memory ledger that the renderer reads: the parts of the beancount
    crate's `core` types that src/lib.rs looks at. Every value here is
    immutable input; the renderer only projects it to text. */
module Core {

  /** A result in the style of Rust's `Result<T, E>`. */
  datatype Result<+T, +E> = Ok(value: T) | Err(error: E)

  /** The `Display` text of a chrono date, e.g. "2023-01-01". Date formatting
      is not modelled: a date is represented by the text it displays as. */
  type Date = string

  /** The `Display` text of a decimal number, e.g. "100.00". */
  type Decimal = string

  /** Metadata of a directive, in the iteration order of the underlying hash
      map: one (key, value) pair per entry. */
  type Metadata = seq<(string, string)>

  /** The keys of a hash map are unique, so an enumeration of one names each
      key once. */
  predicate DistinctKeys(meta: Metadata)
  {
    forall i, j :: 0 <= i < j < |meta| ==> meta[i].0 != meta[j].0
  }

  datatype AccountType = Assets | Liabilities | Equity | Income | Expenses

  /** An account name such as Assets:Bank:Checking: its root type and the
      components after it. */
  datatype Account = Account(ty: AccountType, parts: seq<string>)

  datatype Amount = Amount(num: Decimal, currency: string)

  /** The booking method of an `open` directive; `None` means "not given". */
  datatype Booking = Strict | None | Average | Fifo | Lifo

  datatype Open = Open(date: Date, account: Account, currencies: seq<string>, booking: Booking, meta: Metadata)

  datatype Close = Close(date: Date, account: Account, meta: Metadata)

  datatype Balance = Balance(date: Date, account: Account, amount: Amount, meta: Metadata)

  datatype BcOption = BcOption(name: string, val: string)

  datatype Commodity = Commodity(date: Date, name: string, meta: Metadata)

  datatype Custom = Custom(date: Date, name: string, args: seq<string>, meta: Metadata)

  /** One top-level statement of a ledger. The directives whose renderers are
      not part of this model (Document, Event, Include, Note, Pad, Plugin,
      Price, Query, Transaction) carry the text that their renderer writes;
      `Unsupported` is the sentinel for a node the parser could not classify. */
  datatype Directive =
    | OpenDirective(open: Open)
    | CloseDirective(close: Close)
    | BalanceDirective(balance: Balance)
    | OptionDirective(option: BcOption)
    | CommodityDirective(commodity: Commodity)
    | CustomDirective(custom: Custom)
    | Document(rendered: string)
    | Event(rendered: string)
    | Include(rendered: string)
    | Note(rendered: string)
    | Pad(rendered: string)
    | Plugin(rendered: string)
    | Price(rendered: string)
    | Query(rendered: string)
    | Transaction(rendered: string)
    | Unsupported

  datatype Ledger = Ledger(directives: seq<Directive>)
}
