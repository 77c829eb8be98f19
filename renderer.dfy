/** `BasicRenderer`: renders a ledger by appending text to a writer. The
    renderer itself is stateless, so its `render` implementations are
    methods of this module; the writer is the one object they change. */
module BasicRenderer {
  import opened Core
  import opened Text
  import opened Syntax

  /** The output sink: everything written so far. Writes always succeed. */
  class Writer {
    var buf: string

    constructor ()
      ensures buf == ""
    {
      buf := "";
    }

    method Write(s: string)
      modifies this
      ensures buf == old(buf) + s
    {
      buf := buf + s;
    }
  }

  /** Renders every directive in order, each followed by a newline; the
      first unsupported directive ends the loop with its error, and the
      text of the directives before it stays written. */
  method RenderLedger(ledger: Ledger, w: Writer) returns (r: Result<(), BasicRendererError>)
    modifies w
    ensures r.Ok? <==> AllSupported(ledger.directives)
    ensures r.Err? ==> r.error == BasicRendererError.Unsupported
    ensures w.buf == old(w.buf) + LedgerOutput(ledger.directives)
  {
    ghost var start := w.buf;
    var ds := ledger.directives;
    for i := 0 to |ds|
      invariant AllSupported(ds[..i])
      invariant w.buf == start + LedgerOutput(ds[..i])
    {
      var res := RenderDirective(ds[i], w);
      if res.Err? {
        LedgerStopsAtUnsupported(ds, i);
        return Err(res.error);
      }
      ghost var text := DirectiveText(ds[i]).value;
      AppendAssoc(start, LedgerOutput(ds[..i]), text);
      w.Write("\n");
      AppendAssoc(start, LedgerOutput(ds[..i]) + text, "\n");
      LedgerOutputStep(ds, i);
    }
    assert ds[..|ds|] == ds;
    return Ok(());
  }

  /** Dispatches on the kind of directive; `Unsupported` writes nothing and
      returns the error. */
  method RenderDirective(d: Directive, w: Writer) returns (r: Result<(), BasicRendererError>)
    modifies w
    ensures r.Ok? <==> !d.Unsupported?
    ensures r.Err? ==> r.error == BasicRendererError.Unsupported && w.buf == old(w.buf)
    ensures r.Ok? ==> w.buf == old(w.buf) + DirectiveText(d).value
  {
    match d {
      case OpenDirective(open) => RenderOpen(open, w);
      case CloseDirective(close) => RenderClose(close, w);
      case BalanceDirective(balance) => RenderBalance(balance, w);
      case OptionDirective(option) => RenderOption(option, w);
      case CommodityDirective(commodity) => RenderCommodity(commodity, w);
      case CustomDirective(custom) => RenderCustom(custom, w);
      case Document(text) => w.Write(text);
      case Event(text) => w.Write(text);
      case Include(text) => w.Write(text);
      case Note(text) => w.Write(text);
      case Pad(text) => w.Write(text);
      case Plugin(text) => w.Write(text);
      case Price(text) => w.Write(text);
      case Query(text) => w.Write(text);
      case Transaction(text) => w.Write(text);
      case Unsupported => return Err(BasicRendererError.Unsupported);
    }
    return Ok(());
  }

  /** `render_key_value`: one line per metadata entry, in iteration order. */
  method RenderKeyValue(kv: Metadata, w: Writer)
    modifies w
    ensures w.buf == old(w.buf) + MetaText(kv)
  {
    for i := 0 to |kv|
      invariant w.buf == old(w.buf) + MetaText(kv[..i])
    {
      var (key, value) := kv[i];
      w.Write("\t" + key + ": " + value + "\n");
      MetaTextSnoc(kv[..i], key, value);
      assert kv[..i + 1] == kv[..i] + [(key, value)];
    }
    assert kv[..|kv|] == kv;
  }

  method RenderOpen(open: Open, w: Writer)
    modifies w
    ensures w.buf == old(w.buf) + OpenText(open)
  {
    ghost var start := w.buf;
    w.Write(open.date + " open ");
    ghost var h := open.date + " open ";
    RenderAccount(open.account, w);
    AppendAssoc(start, h, AccountText(open.account));
    h := h + AccountText(open.account);
    RenderCurrencies(open.currencies, w);
    AppendAssoc(start, h, Join(open.currencies, " "));
    h := h + Join(open.currencies, " ");
    RenderBooking(open.booking, w);
    AppendAssoc(start, h, BookingSuffix(open.booking));
    h := h + BookingSuffix(open.booking);
    w.Write("\n");
    AppendAssoc(start, h, "\n");
    h := h + "\n";
    RenderKeyValue(open.meta, w);
    AppendAssoc(start, h, MetaText(open.meta));
  }

  /** The currency loop of `open`: each currency, then a space unless it
      is the last one. */
  method RenderCurrencies(currencies: seq<string>, w: Writer)
    modifies w
    ensures w.buf == old(w.buf) + Join(currencies, " ")
  {
    for i := 0 to |currencies|
      invariant w.buf == old(w.buf) + CurrenciesWritten(currencies, i)
    {
      w.Write(currencies[i]);
      AppendAssoc(old(w.buf), CurrenciesWritten(currencies, i), currencies[i]);
      // `len() - 1` on a `usize`: only evaluated inside the loop, where the
      // list is non-empty, so it never underflows.
      var last: nat := |currencies| - 1;
      if i < last {
        w.Write(" ");
        AppendAssoc(old(w.buf), CurrenciesWritten(currencies, i) + currencies[i], " ");
      }
      CurrenciesWrittenStep(currencies, i);
    }
    CurrenciesWrittenAll(currencies);
  }

  /** The booking suffix of `open`: nothing for `None`, otherwise the
      quoted method name after a space. */
  method RenderBooking(booking: Booking, w: Writer)
    modifies w
    ensures w.buf == old(w.buf) + BookingSuffix(booking)
  {
    match booking {
      case Strict => w.Write(" \"strict\"");
      case None =>
      case Average => w.Write(" \"average\"");
      case Fifo => w.Write(" \"fifo\"");
      case Lifo => w.Write(" \"lifo\"");
    }
  }

  method RenderClose(close: Close, w: Writer)
    modifies w
    ensures w.buf == old(w.buf) + CloseText(close)
  {
    ghost var start := w.buf;
    w.Write(close.date + " close ");
    ghost var h := close.date + " close ";
    RenderAccount(close.account, w);
    AppendAssoc(start, h, AccountText(close.account));
    h := h + AccountText(close.account);
    w.Write("\n");
    AppendAssoc(start, h, "\n");
    h := h + "\n";
    RenderKeyValue(close.meta, w);
    AppendAssoc(start, h, MetaText(close.meta));
  }

  method RenderAccount(account: Account, w: Writer)
    modifies w
    ensures w.buf == old(w.buf) + AccountText(account)
  {
    var name :=
      match account.ty
      case Assets => "Assets"
      case Liabilities => "Liabilities"
      case Equity => "Equity"
      case Income => "Income"
      case Expenses => "Expenses";
    w.Write(name + ":" + Join(account.parts, ":"));
  }

  method RenderBalance(balance: Balance, w: Writer)
    modifies w
    ensures w.buf == old(w.buf) + BalanceText(balance)
  {
    ghost var start := w.buf;
    w.Write(balance.date + " balance ");
    ghost var h := balance.date + " balance ";
    RenderAccount(balance.account, w);
    AppendAssoc(start, h, AccountText(balance.account));
    h := h + AccountText(balance.account);
    w.Write("\t");
    AppendAssoc(start, h, "\t");
    h := h + "\t";
    RenderAmount(balance.amount, w);
    AppendAssoc(start, h, AmountText(balance.amount));
    h := h + AmountText(balance.amount);
    w.Write("\n");
    AppendAssoc(start, h, "\n");
    h := h + "\n";
    RenderKeyValue(balance.meta, w);
    AppendAssoc(start, h, MetaText(balance.meta));
  }

  method RenderAmount(amount: Amount, w: Writer)
    modifies w
    ensures w.buf == old(w.buf) + AmountText(amount)
  {
    w.Write(amount.num + " " + amount.currency);
  }

  method RenderOption(option: BcOption, w: Writer)
    modifies w
    ensures w.buf == old(w.buf) + OptionText(option)
  {
    w.Write("option \"" + option.name + "\" \"" + option.val + "\"\n");
  }

  method RenderCommodity(commodity: Commodity, w: Writer)
    modifies w
    ensures w.buf == old(w.buf) + CommodityText(commodity)
  {
    w.Write(commodity.date + " commodity " + commodity.name + "\n");
    RenderKeyValue(commodity.meta, w);
  }

  method RenderCustom(custom: Custom, w: Writer)
    modifies w
    ensures w.buf == old(w.buf) + CustomText(custom)
  {
    w.Write(custom.date + " custom \"" + custom.name + "\" " + Join(custom.args, " ") + "\n");
    RenderKeyValue(custom.meta, w);
  }
}
