# beancount_render: a verified model of `BasicRenderer`

`BasicRenderer` serialises a Beancount ledger, a sequence of directives, into
Beancount's plain-text syntax. It appends text to an output writer through
successive `write!`/`writeln!` calls. This project models that serialiser in
Dafny and proves what the text looks like.

- `core.dfy` (module `Core`): the parts of the ledger that the renderer
  reads. These are accounts, amounts, booking methods and metadata, plus the
  directives Open, Close, Balance, BcOption, Commodity and Custom. The
  `Directive` union has one constructor per variant. The Rust variants
  `Directive::Open` … `Directive::Custom` are named `OpenDirective` …
  `CustomDirective` here, so that they do not clash with the record types.
- `text.dfy` (module `Text`): Rust's `join` on a slice of strings, with
  splitting, searching and counting lemmas.
- `syntax.dfy` (module `Syntax`): the exact text of each node as a pure
  function. Its lemmas state what a reader of that text can rely on:
  round trips, line counts, where separators are and are not written, and
  how an unsupported directive ends a ledger.
- `renderer.dfy` (module `BasicRenderer`): a `Writer` class whose `buf`
  field holds everything written so far. The render methods call
  `Writer.Write` once per write in the source, in the same order. Each
  method is proved to append exactly the text given by its `Syntax`
  function. The currency, metadata and directive loops are `for` loops
  with invariants.
- `examples.dfy` (module `Scenarios`): concrete directives and the exact
  text they produce.

Three places where the text the code writes departs from ordinary
Beancount syntax are modelled exactly as written:

- In Beancount's `open` directive, whitespace separates the account from
  its currencies. Line 73 writes the account and line 75 writes the first
  currency straight after it, with no space, so the code writes
  `Assets:Bank:CheckingUSD` (`Scenarios.OpenWithOneCurrency`,
  `Syntax.OpenGluesFirstCurrency`).
- A `custom` directive is its quoted name followed by its arguments. The
  format string on line 165 always writes a space after the name, so with no arguments the first
  line ends in a space (`Syntax.CustomTrailingSpace`).
- Account always writes the colon after the type name, so an account with
  no components is written `Assets:` (`Syntax.AccountWithoutPartsKeepsColon`).

## Model

| member | source | states |
|---|---|---|
| `BasicRenderer.RenderLedger` | src/lib.rs:25-31 | Appends exactly `LedgerOutput(directives)`. Returns Ok iff no directive is `Unsupported`; the only error is `Unsupported`. |
| `Syntax.LedgerOutputStep` | src/lib.rs:26-29 | After a supported directive, the output grows by that directive's text and one `"\n"`, and nothing else. |
| `Syntax.LedgerOutputAppend` | src/lib.rs:26-29 | The output of a run of supported directives does not depend on what follows them. |
| `Syntax.LedgerStopsAtUnsupported` | src/lib.rs:26-28 | When directive k is the first `Unsupported`, the output is the text of directives 0..k-1, each with its newline. Nothing of k or later is written. |
| `BasicRenderer.RenderDirective` | src/lib.rs:36-56 | Returns Ok iff the directive is not `Unsupported`. On Ok it appends `DirectiveText(d)`. On `Unsupported` it returns `Err(Unsupported)` and leaves the buffer unchanged. |
| `Syntax.DirectiveText` | src/lib.rs:38-55 | Gives an error exactly for the `Unsupported` sentinel, and that error is `Unsupported`. |
| `BasicRenderer.RenderKeyValue` | src/lib.rs:59-67 | Appends exactly the metadata block `MetaText(kv)`, one line per entry in iteration order. |
| `Syntax.MetaTextSnoc` | src/lib.rs:63-65 | One more entry adds exactly the line `"\t" + key + ": " + value + "\n"` at the end of the block. |
| `Syntax.MetaTextIsLines` | src/lib.rs:63-65 | The block is its lines written one after the other. There is exactly one line per entry. |
| `Syntax.MetaLineNewlines` | src/lib.rs:64 | Keys and values are not escaped: each newline inside them adds a line. |
| `Syntax.MetaTextLineCount` | src/lib.rs:63-65 | With newline-free keys and values, the block has exactly `\|meta\|` newlines. |
| `Syntax.MetaTextEndsWithNewline` | src/lib.rs:63-65 | A non-empty block ends with a newline. |
| `Syntax.MetaLinesPermutation` | src/lib.rs:61-65 | Two enumerations of the same entries give the same multiset of lines. |
| `Syntax.MetaBlockOrderIndependent` | src/lib.rs:61-65 | Any two iteration orders of one hash map (distinct keys, same entries) write the same lines, perhaps in another order. |
| `BasicRenderer.RenderOpen` | src/lib.rs:71-90 | Appends exactly `OpenText(open)`: date, ` open `, account, currencies, booking suffix, newline, metadata. |
| `BasicRenderer.RenderCurrencies` | src/lib.rs:74-79 | The currency loop appends exactly the currencies joined by single spaces. The unsigned `len() - 1` is proved never to underflow: it is a `nat` evaluated only inside the loop, where the list is non-empty. |
| `BasicRenderer.RenderBooking` | src/lib.rs:80-86 | Appends exactly `BookingSuffix(booking)`: nothing for `None`, otherwise a space and the quoted method name. |
| `Syntax.CurrenciesWrittenStep` | src/lib.rs:74-79 | Each iteration of the currency loop writes the currency, then a space only when it is not the last. |
| `Syntax.CurrenciesWrittenAll` | src/lib.rs:74-79 | After the loop, the currencies are joined by single spaces; an empty list writes nothing. |
| `Syntax.OpenGluesFirstCurrency` | src/lib.rs:73-75 | The first currency follows the account with no separator. |
| `Text.JoinEndsWithLast` | src/lib.rs:74-79 | Joined text ends with its last part: there is no trailing separator. |
| `Syntax.BookingSuffixRoundTrip` | src/lib.rs:80-86 | `None` writes nothing. Each other method writes one suffix, which reads back as that method. |
| `BasicRenderer.RenderClose` | src/lib.rs:95-101 | Appends exactly `CloseText(close)`: `date close account`, newline, metadata. |
| `BasicRenderer.RenderAccount` | src/lib.rs:106-120 | Appends exactly `AccountText(account)`: the type name, `:`, and the parts joined by `:`. |
| `Syntax.AccountTypeOf` | src/lib.rs:110-116 | Reading a type name back gives a type whose name is that text. |
| `Syntax.TypeNameHasNoColonOrNewline` | src/lib.rs:110-116 | No type name contains `:` or a newline, and each reads back as its own type. |
| `Syntax.AccountRoundTrip` | src/lib.rs:107-118 | An account with at least one component, none of them containing `:`, reads back from its text unchanged. |
| `Syntax.AccountWithoutPartsKeepsColon` | src/lib.rs:107-118 | With no components the text is the type name and `:`. It reads back as one empty component. |
| `BasicRenderer.RenderBalance` | src/lib.rs:125-133 | Appends exactly `date balance account`, a tab, the amount, a newline, then metadata. |
| `BasicRenderer.RenderAmount` | src/lib.rs:138-141 | Appends exactly `AmountText(amount)`. |
| `Syntax.AmountRoundTrip` | src/lib.rs:139 | With a space-free number, splitting at the first space gives back number and currency. |
| `BasicRenderer.RenderOption` | src/lib.rs:146-149 | Appends exactly `option "name" "val"` and a newline, with no metadata. |
| `BasicRenderer.RenderCommodity` | src/lib.rs:154-157 | Appends exactly `date commodity name`, a newline, then metadata. |
| `BasicRenderer.RenderCustom` | src/lib.rs:162-171 | Appends exactly `date custom "name" `, the arguments joined by spaces, a newline, then metadata. |
| `Syntax.CustomTrailingSpace` | src/lib.rs:163-169 | Without arguments, the first line ends with a space. |
| `Syntax.DirectiveLayout` | src/lib.rs:71-171 | Each modelled directive is one header line, a newline, then its metadata block. Every successful render ends in a newline. |
| `Syntax.HeaderNewlineFree` | src/lib.rs:71-171 | With newline-free fields, the first line contains no newline of its own. |
| `Syntax.DirectiveLineCount` | src/lib.rs:71-171 | With newline-free fields, a directive is exactly 1 + \|metadata\| lines (Option: one line). |
| `Scenarios.OpenWithOneCurrency` | src/lib.rs:72-87 | Gives the exact text of an `open` with one currency and strict booking (account and currency glued). |
| `Scenarios.OpenWithTwoCurrencies` | src/lib.rs:72-87 | Gives the exact text of an `open` with two currencies and no booking. |
| `Scenarios.BalanceOfChecking` | src/lib.rs:126-130 | Gives the exact text of a balance assertion. |
| `Scenarios.CloseWithMetadata` | src/lib.rs:96-99 | Gives the exact text of a `close` with one metadata entry. |
| `Scenarios.CustomWithoutArguments` | src/lib.rs:163-169 | Gives the exact text of a custom directive without arguments, trailing space included. |
| `Scenarios.OptionLine` | src/lib.rs:147 | Gives the exact text of an option. |
| `Scenarios.LedgerWithUnsupported` | src/lib.rs:26-28 | A ledger of commodity, unsupported, commodity writes only the first commodity and its blank line. |

## Left out

- I/O failure: writes never fail here, so the `Io` variant of `BasicRendererError` and the `?` after each write are not modelled. The per-node render methods return nothing. Line 75 discards the result of the currency write; that would matter only for a failing writer.
- Date and number formatting: a date and a decimal are represented by their `Display` text (`Core.Date`, `Core.Decimal`). chrono's and the decimal type's formatting are not part of this model.
- Hash map order: metadata is the sequence of entries in the order the map yields them. That order is unspecified, so the order-independent statement is `Syntax.MetaBlockOrderIndependent`, up to a permutation of lines.
- Renderers for Document, Event, Include, Note, Pad, Plugin, Price, Query and Transaction are not part of this model. Their code is not in src/lib.rs. Such a directive carries the text its renderer would write, and the dispatcher appends it and returns Ok. Errors those renderers might return are not modelled.
- Posting, CostSpec, IncompleteAmount and Flag: their renderers are not part of this model, for the same reason.
- The generic `Renderer<T, W>` trait, lifetimes and the `thiserror` derive are Rust plumbing. The render operations are plain methods of module `BasicRenderer` taking the node and the writer.
- Fields of the beancount core types that the renderer never reads are not modelled.
