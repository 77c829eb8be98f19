/** The text that `BasicRenderer` writes for each node of the ledger, as pure
    functions of the node, and what a reader of that text can rely on. The
    render methods in module BasicRenderer are proved to append exactly
    these texts. */
module Syntax {
  import opened Core
  import opened Text

  /** `BasicRendererError`; the `Io` variant is not modelled (writes never
      fail in this model). */
  datatype BasicRendererError = Unsupported

  // ---------------------------------------------------------------- accounts

  function TypeName(ty: AccountType): string
  {
    match ty
    case Assets => "Assets"
    case Liabilities => "Liabilities"
    case Equity => "Equity"
    case Income => "Income"
    case Expenses => "Expenses"
  }

  /** `{type}:{parts joined by ":"}`; the colon after the type is written
      even when there are no parts. */
  function AccountText(a: Account): string
  {
    TypeName(a.ty) + ":" + Join(a.parts, ":")
  }

  /** Reads an account type name back; the inverse of TypeName. */
  function AccountTypeOf(name: string): (r: Result<AccountType, string>)
    ensures r.Ok? ==> TypeName(r.value) == name
  {
    if name == "Assets" then Ok(Assets)
    else if name == "Liabilities" then Ok(Liabilities)
    else if name == "Equity" then Ok(Equity)
    else if name == "Income" then Ok(Income)
    else if name == "Expenses" then Ok(Expenses)
    else Err(name)
  }

  /** Reads an account name: a type name and at least one component,
      separated by colons. */
  function ParseAccount(s: string): Result<Account, string>
  {
    var segments := Split(s, ':');
    if |segments| < 2 then Err(s)
    else
      match AccountTypeOf(segments[0])
      case Err(e) => Err(e)
      case Ok(ty) => Ok(Account(ty, segments[1..]))
  }

  lemma TypeNameHasNoColonOrNewline(ty: AccountType)
    ensures ':' !in TypeName(ty) && '\n' !in TypeName(ty)
    ensures AccountTypeOf(TypeName(ty)) == Ok(ty)
  {
    match ty
    case Assets =>
      assert TypeName(ty) == ['A', 's', 's', 'e', 't', 's'];
    case Liabilities =>
      assert TypeName(ty) == ['L', 'i', 'a', 'b', 'i', 'l', 'i', 't', 'i', 'e', 's'];
    case Equity =>
      assert TypeName(ty) == ['E', 'q', 'u', 'i', 't', 'y'];
    case Income =>
      assert TypeName(ty) == ['I', 'n', 'c', 'o', 'm', 'e'];
    case Expenses =>
      assert TypeName(ty) == ['E', 'x', 'p', 'e', 'n', 's', 'e', 's'];
  }

  /** The account text reads back as the same account when it has at least
      one component and no component contains a colon. */
  lemma AccountRoundTrip(a: Account)
    requires |a.parts| >= 1
    requires forall i :: 0 <= i < |a.parts| ==> ':' !in a.parts[i]
    ensures ParseAccount(AccountText(a)) == Ok(a)
  {
    TypeNameHasNoColonOrNewline(a.ty);
    SplitAfterPiece(TypeName(a.ty), Join(a.parts, ":"), ':');
    SplitJoin(a.parts, ':');
  }

  /** An account without components is written with its colon, as "Assets:",
      which reads back as an account with one empty component. */
  lemma AccountWithoutPartsKeepsColon(ty: AccountType)
    ensures AccountText(Account(ty, [])) == TypeName(ty) + ":"
    ensures ParseAccount(AccountText(Account(ty, []))) == Ok(Account(ty, [""]))
  {
    TypeNameHasNoColonOrNewline(ty);
    SplitAfterPiece(TypeName(ty), "", ':');
    assert TypeName(ty) + ":" + Join([], ":") == TypeName(ty) + [':'] + "";
  }

  // ----------------------------------------------------------------- amounts

  /** `{num} {currency}`, with exactly one space. */
  function AmountText(a: Amount): string
  {
    a.num + " " + a.currency
  }

  /** Reads an amount: the number up to the first space, the currency after. */
  function ParseAmount(s: string): Result<Amount, string>
  {
    if ' ' !in s then Err(s)
    else
      var i := IndexOf(s, ' ');
      Ok(Amount(s[..i], s[i + 1..]))
  }

  lemma AmountRoundTrip(a: Amount)
    requires ' ' !in a.num
    ensures ParseAmount(AmountText(a)) == Ok(a)
  {
    IndexOfAfterPiece(a.num, a.currency, ' ');
    var s := a.num + [' '] + a.currency;
    assert s[..|a.num|] == a.num;
    assert s[|a.num| + 1..] == a.currency;
  }

  // ---------------------------------------------------------------- metadata

  /** One metadata line: a tab, the key, ": ", the value, a newline. Neither
      key nor value is escaped. */
  function MetaLine(key: string, value: string): string
  {
    "\t" + key + ": " + value + "\n"
  }

  /** The metadata block: one line per entry, in iteration order. */
  function MetaText(meta: Metadata): string
  {
    if |meta| == 0 then ""
    else MetaLine(meta[0].0, meta[0].1) + MetaText(meta[1..])
  }

  lemma {:induction false} MetaTextSnoc(meta: Metadata, key: string, value: string)
    ensures MetaText(meta + [(key, value)]) == MetaText(meta) + MetaLine(key, value)
  {
    if meta == [] {
      assert meta + [(key, value)] == [(key, value)];
    } else {
      assert (meta + [(key, value)])[1..] == meta[1..] + [(key, value)];
      MetaTextSnoc(meta[1..], key, value);
    }
  }

  lemma MetaTextEndsWithNewline(meta: Metadata)
    requires |meta| >= 1
    ensures |MetaText(meta)| >= 1 && MetaText(meta)[|MetaText(meta)| - 1] == '\n'
  {
    var n := |meta|;
    assert meta == meta[..n - 1] + [meta[n - 1]];
    MetaTextSnoc(meta[..n - 1], meta[n - 1].0, meta[n - 1].1);
  }

  /** Nothing is escaped: every newline in a key or a value ends a line of
      its own, in addition to the newline that ends the entry. */
  lemma MetaLineNewlines(key: string, value: string)
    ensures Count(MetaLine(key, value), '\n') == 1 + Count(key, '\n') + Count(value, '\n')
  {
    CountAppend("\t" + key + ": " + value, "\n", '\n');
    CountAppend("\t" + key + ": ", value, '\n');
    CountAppend("\t" + key, ": ", '\n');
    CountAppend("\t", key, '\n');
  }

  predicate MetaNewlineFree(meta: Metadata)
  {
    forall i :: 0 <= i < |meta| ==> '\n' !in meta[i].0 && '\n' !in meta[i].1
  }

  /** With newline-free keys and values the block has exactly one line per
      entry. */
  lemma {:induction false} MetaTextLineCount(meta: Metadata)
    requires MetaNewlineFree(meta)
    ensures Count(MetaText(meta), '\n') == |meta|
  {
    if meta != [] {
      MetaLineNewlines(meta[0].0, meta[0].1);
      CountAbsent(meta[0].0, '\n');
      CountAbsent(meta[0].1, '\n');
      CountAppend(MetaLine(meta[0].0, meta[0].1), MetaText(meta[1..]), '\n');
      MetaTextLineCount(meta[1..]);
    }
  }

  /** The lines of the metadata block, one per entry. */
  function MetaLines(meta: Metadata): seq<string>
  {
    seq(|meta|, i requires 0 <= i < |meta| => MetaLine(meta[i].0, meta[i].1))
  }

  lemma {:induction false} MetaTextIsLines(meta: Metadata)
    ensures MetaText(meta) == Concat(MetaLines(meta))
  {
    if meta != [] {
      MetaTextIsLines(meta[1..]);
      assert MetaLines(meta) == [MetaLine(meta[0].0, meta[0].1)] + MetaLines(meta[1..]);
    }
  }

  lemma CancelOne<T>(a: multiset<T>, b: multiset<T>, x: T)
    requires multiset{x} + a == b + multiset{x}
    ensures a == b
  {
    forall e ensures a[e] == b[e] {
      assert (multiset{x} + a)[e] == multiset{x}[e] + a[e];
      assert (b + multiset{x})[e] == b[e] + multiset{x}[e];
    }
  }

  /** Taking the element at `j` out of a sequence takes one occurrence of
      it out of the sequence's multiset. */
  lemma MultisetRemoveAt<T>(s: seq<T>, j: nat)
    requires j < |s|
    ensures multiset(s) == multiset(s[..j] + s[j + 1..]) + multiset{s[j]}
  {
    assert s == s[..j] + [s[j]] + s[j + 1..];
  }

  lemma MetaLinesCons(meta: Metadata)
    requires meta != []
    ensures MetaLines(meta) == [MetaLine(meta[0].0, meta[0].1)] + MetaLines(meta[1..])
  {
  }

  lemma MetaLinesWithout(meta: Metadata, j: nat)
    requires j < |meta|
    ensures MetaLines(meta)[..j] + MetaLines(meta)[j + 1..] == MetaLines(meta[..j] + meta[j + 1..])
    ensures MetaLines(meta)[j] == MetaLine(meta[j].0, meta[j].1)
  {
  }

  /** Enumerations of the same entries in another order give the same lines
      in another order. */
  lemma {:induction false} MetaLinesPermutation(m1: Metadata, m2: Metadata)
    requires multiset(m1) == multiset(m2)
    ensures multiset(MetaLines(m1)) == multiset(MetaLines(m2))
  {
    if m1 == [] {
      assert m2 == [];
    } else {
      var x := m1[0];
      assert x in multiset(m2);
      var j :| 0 <= j < |m2| && m2[j] == x;
      var rest := m2[..j] + m2[j + 1..];
      MultisetRemoveAt(m2, j);
      assert m1 == [x] + m1[1..];
      CancelOne(multiset(m1[1..]), multiset(rest), x);
      MetaLinesPermutation(m1[1..], rest);
      MultisetRemoveAt(MetaLines(m2), j);
      MetaLinesWithout(m2, j);
      MetaLinesCons(m1);
    }
  }

  /** Without duplicate entries an element occurs once if at all. */
  lemma {:induction false} DistinctOccurrences(meta: Metadata, e: (string, string))
    requires DistinctKeys(meta)
    ensures multiset(meta)[e] == if e in meta then 1 else 0
  {
    if meta != [] {
      assert DistinctKeys(meta[1..]) by {
        forall i, j | 0 <= i < j < |meta[1..]| ensures meta[1..][i].0 != meta[1..][j].0 {
          assert meta[1..][i] == meta[i + 1] && meta[1..][j] == meta[j + 1];
        }
      }
      DistinctOccurrences(meta[1..], e);
      assert meta == [meta[0]] + meta[1..];
      if e == meta[0] {
        assert e !in meta[1..];
      }
    }
  }

  /** The order in which a hash map yields its entries is unspecified: any
      two enumerations of the same map write the same metadata lines, only
      perhaps in another order. */
  lemma MetaBlockOrderIndependent(m1: Metadata, m2: Metadata)
    requires DistinctKeys(m1) && DistinctKeys(m2)
    requires forall e :: e in m1 <==> e in m2
    ensures multiset(MetaLines(m1)) == multiset(MetaLines(m2))
    ensures |MetaLines(m1)| == |MetaLines(m2)|
  {
    forall e ensures multiset(m1)[e] == multiset(m2)[e] {
      DistinctOccurrences(m1, e);
      DistinctOccurrences(m2, e);
    }
    assert multiset(m1) == multiset(m2);
    MetaLinesPermutation(m1, m2);
  }

  // -------------------------------------------------------------- directives

  /** The quoted suffix that names a booking method; nothing for `None`. */
  function BookingSuffix(b: Booking): string
  {
    match b
    case Strict => " \"strict\""
    case None => ""
    case Average => " \"average\""
    case Fifo => " \"fifo\""
    case Lifo => " \"lifo\""
  }

  /** Reads a booking suffix back; anything else reads as no booking. */
  function BookingOf(suffix: string): Booking
  {
    if suffix == " \"strict\"" then Strict
    else if suffix == " \"average\"" then Average
    else if suffix == " \"fifo\"" then Fifo
    else if suffix == " \"lifo\"" then Lifo
    else Booking.None
  }

  /** `None` writes nothing; every other method writes exactly one suffix,
      and the suffix names the method it was written for. */
  lemma BookingSuffixRoundTrip(b: Booking)
    ensures BookingSuffix(b) == "" <==> b == Booking.None
    ensures BookingOf(BookingSuffix(b)) == b
  {
    match b
    case Strict => assert BookingSuffix(b)[2] == 's';
    case None =>
    case Average => assert BookingSuffix(b)[2] == 'a';
    case Fifo => assert BookingSuffix(b)[2] == 'f';
    case Lifo => assert BookingSuffix(b)[2] == 'l';
  }

  /** `{date} open {account}{currencies joined by " "}{booking}\n{meta}`.
      No space separates the account from the first currency. */
  function OpenText(o: Open): string
  {
    o.date + " open " + AccountText(o.account) + Join(o.currencies, " ")
      + BookingSuffix(o.booking) + "\n" + MetaText(o.meta)
  }

  /** The text the currency loop of `open` has written after its first `i`
      iterations: the currencies so far, and the space that follows every
      currency except the last. */
  function CurrenciesWritten(currencies: seq<string>, i: nat): string
    requires i <= |currencies|
  {
    Join(currencies[..i], " ") + (if 0 < i < |currencies| then " " else "")
  }

  /** One iteration writes the next currency, then a space unless it is the
      last one. */
  lemma CurrenciesWrittenStep(currencies: seq<string>, i: nat)
    requires i < |currencies|
    ensures CurrenciesWritten(currencies, i + 1)
         == CurrenciesWritten(currencies, i) + currencies[i]
            + (if i < |currencies| - 1 then " " else "")
  {
    JoinSnoc(currencies[..i], currencies[i], " ");
    assert currencies[..i + 1] == currencies[..i] + [currencies[i]];
  }

  /** After the last iteration the loop has written the currencies joined by
      single spaces: no space after the last, none at all for no currency. */
  lemma CurrenciesWrittenAll(currencies: seq<string>)
    ensures CurrenciesWritten(currencies, |currencies|) == Join(currencies, " ")
  {
    assert currencies[..|currencies|] == currencies;
  }

  function CloseText(c: Close): string
  {
    c.date + " close " + AccountText(c.account) + "\n" + MetaText(c.meta)
  }

  function BalanceText(b: Balance): string
  {
    b.date + " balance " + AccountText(b.account) + "\t" + AmountText(b.amount)
      + "\n" + MetaText(b.meta)
  }

  function OptionText(o: BcOption): string
  {
    "option \"" + o.name + "\" \"" + o.val + "\"\n"
  }

  function CommodityText(c: Commodity): string
  {
    c.date + " commodity " + c.name + "\n" + MetaText(c.meta)
  }

  /** The space after the quoted name is written even when there are no
      arguments. */
  function CustomText(c: Custom): string
  {
    c.date + " custom \"" + c.name + "\" " + Join(c.args, " ") + "\n" + MetaText(c.meta)
  }

  /** What rendering a directive writes, or the error it returns. */
  function DirectiveText(d: Directive): (r: Result<string, BasicRendererError>)
    ensures r.Err? <==> d.Unsupported?
    ensures r.Err? ==> r.error == BasicRendererError.Unsupported
  {
    match d
    case OpenDirective(open) => Ok(OpenText(open))
    case CloseDirective(close) => Ok(CloseText(close))
    case BalanceDirective(balance) => Ok(BalanceText(balance))
    case OptionDirective(option) => Ok(OptionText(option))
    case CommodityDirective(commodity) => Ok(CommodityText(commodity))
    case CustomDirective(custom) => Ok(CustomText(custom))
    case Document(text) => Ok(text)
    case Event(text) => Ok(text)
    case Include(text) => Ok(text)
    case Note(text) => Ok(text)
    case Pad(text) => Ok(text)
    case Plugin(text) => Ok(text)
    case Price(text) => Ok(text)
    case Query(text) => Ok(text)
    case Transaction(text) => Ok(text)
    case Unsupported => Err(BasicRendererError.Unsupported)
  }

  /** The directives whose renderer is part of this model. */
  predicate Modelled(d: Directive)
  {
    d.OpenDirective? || d.CloseDirective? || d.BalanceDirective?
    || d.OptionDirective? || d.CommodityDirective? || d.CustomDirective?
  }

  /** The metadata a modelled directive writes after its first line. */
  function Meta(d: Directive): Metadata
    requires Modelled(d)
  {
    match d
    case OpenDirective(o) => o.meta
    case CloseDirective(c) => c.meta
    case BalanceDirective(b) => b.meta
    case OptionDirective(_) => []
    case CommodityDirective(c) => c.meta
    case CustomDirective(c) => c.meta
  }

  /** The first line of a modelled directive, without its newline. */
  function Header(d: Directive): string
    requires Modelled(d)
  {
    match d
    case OpenDirective(o) =>
      o.date + " open " + AccountText(o.account) + Join(o.currencies, " ") + BookingSuffix(o.booking)
    case CloseDirective(c) => c.date + " close " + AccountText(c.account)
    case BalanceDirective(b) => b.date + " balance " + AccountText(b.account) + "\t" + AmountText(b.amount)
    case OptionDirective(o) => "option \"" + o.name + "\" \"" + o.val + "\""
    case CommodityDirective(c) => c.date + " commodity " + c.name
    case CustomDirective(c) => c.date + " custom \"" + c.name + "\" " + Join(c.args, " ")
  }

  /** Every modelled directive is written as one header line followed by its
      metadata block, so its text ends with a newline. */
  lemma DirectiveLayout(d: Directive)
    requires Modelled(d)
    ensures DirectiveText(d) == Ok(Header(d) + "\n" + MetaText(Meta(d)))
    ensures var t := DirectiveText(d).value; |t| >= 1 && t[|t| - 1] == '\n'
  {
    if d.OptionDirective? {
      assert OptionText(d.option) == Header(d) + "\n" + "";
    }
    if |Meta(d)| >= 1 {
      MetaTextEndsWithNewline(Meta(d));
    }
  }

  /** The first currency is written straight after the account, with no
      space in between. */
  lemma OpenGluesFirstCurrency(o: Open)
    requires o.currencies != []
    ensures var head := o.date + " open " + AccountText(o.account) + o.currencies[0];
      |head| <= |OpenText(o)| && OpenText(o)[..|head|] == head
  {
    JoinStartsWithFirst(o.currencies, " ");
    PrefixThrough(o.date + " open " + AccountText(o.account), Join(o.currencies, " "), o.currencies[0],
                  BookingSuffix(o.booking), "\n", MetaText(o.meta));
  }

  /** Without arguments the first line of a custom directive ends with the
      space that follows its quoted name. */
  lemma CustomTrailingSpace(c: Custom)
    requires c.args == []
    ensures var h := Header(CustomDirective(c)); |h| >= 1 && h[|h| - 1] == ' '
    ensures CustomText(c) == Header(CustomDirective(c)) + "\n" + MetaText(c.meta)
  {
    assert Header(CustomDirective(c)) == c.date + " custom \"" + c.name + "\" " + "";
  }

  /** No field of a modelled directive contains a newline. */
  predicate NewlineFree(d: Directive)
    requires Modelled(d)
  {
    && MetaNewlineFree(Meta(d))
    && match d
    case OpenDirective(o) =>
      '\n' !in o.date && PartsNewlineFree(o.account.parts) && PartsNewlineFree(o.currencies)
    case CloseDirective(c) => '\n' !in c.date && PartsNewlineFree(c.account.parts)
    case BalanceDirective(b) =>
      '\n' !in b.date && PartsNewlineFree(b.account.parts)
      && '\n' !in b.amount.num && '\n' !in b.amount.currency
    case OptionDirective(o) => '\n' !in o.name && '\n' !in o.val
    case CommodityDirective(c) => '\n' !in c.date && '\n' !in c.name
    case CustomDirective(c) => '\n' !in c.date && '\n' !in c.name && PartsNewlineFree(c.args)
  }

  predicate PartsNewlineFree(parts: seq<string>)
  {
    forall i :: 0 <= i < |parts| ==> '\n' !in parts[i]
  }

  lemma AccountTextNewlineFree(a: Account)
    requires PartsNewlineFree(a.parts)
    ensures '\n' !in AccountText(a)
  {
    TypeNameHasNoColonOrNewline(a.ty);
    JoinAvoids(a.parts, ":", '\n');
  }

  lemma HeaderNewlineFree(d: Directive)
    requires Modelled(d) && NewlineFree(d)
    ensures '\n' !in Header(d)
  {
    match d {
      case OpenDirective(o) =>
        AccountTextNewlineFree(o.account);
        JoinAvoids(o.currencies, " ", '\n');
      case CloseDirective(c) =>
        AccountTextNewlineFree(c.account);
      case BalanceDirective(b) =>
        AccountTextNewlineFree(b.account);
      case OptionDirective(o) =>
      case CommodityDirective(c) =>
      case CustomDirective(c) =>
        JoinAvoids(c.args, " ", '\n');
    }
  }

  /** When no field holds a newline, a modelled directive is written as
      exactly 1 + |metadata| lines. */
  lemma DirectiveLineCount(d: Directive)
    requires Modelled(d) && NewlineFree(d)
    ensures Count(DirectiveText(d).value, '\n') == 1 + |Meta(d)|
  {
    DirectiveLayout(d);
    HeaderNewlineFree(d);
    CountAbsent(Header(d), '\n');
    CountAppend(Header(d), "\n", '\n');
    CountAppend(Header(d) + "\n", MetaText(Meta(d)), '\n');
    MetaTextLineCount(Meta(d));
  }

  // ------------------------------------------------------------------ ledger

  predicate AllSupported(ds: seq<Directive>)
  {
    forall i :: 0 <= i < |ds| ==> !ds[i].Unsupported?
  }

  /** What rendering a ledger writes: each directive's text followed by one
      newline, in order, up to the first unsupported directive. */
  function LedgerOutput(ds: seq<Directive>): string
  {
    if ds == [] || ds[0].Unsupported? then ""
    else DirectiveText(ds[0]).value + "\n" + LedgerOutput(ds[1..])
  }

  /** The output of a run of supported directives is independent of what
      follows them. */
  lemma {:induction false} LedgerOutputAppend(p: seq<Directive>, q: seq<Directive>)
    requires AllSupported(p)
    ensures LedgerOutput(p + q) == LedgerOutput(p) + LedgerOutput(q)
  {
    if p == [] {
      assert p + q == q;
    } else {
      assert (p + q)[0] == p[0];
      assert (p + q)[1..] == p[1..] + q;
      LedgerOutputAppend(p[1..], q);
    }
  }

  /** An unsupported directive ends the output: what is written is the text
      of the directives before it, and nothing of it or after it. */
  lemma LedgerStopsAtUnsupported(ds: seq<Directive>, k: nat)
    requires k < |ds| && ds[k].Unsupported?
    requires AllSupported(ds[..k])
    ensures LedgerOutput(ds) == LedgerOutput(ds[..k])
  {
    assert ds == ds[..k] + ds[k..];
    LedgerOutputAppend(ds[..k], ds[k..]);
    assert ds[k..][0] == ds[k];
  }

  /** Rendering one more supported directive appends its text and one
      newline to what the directives before it wrote. */
  lemma LedgerOutputStep(ds: seq<Directive>, i: nat)
    requires i < |ds| && !ds[i].Unsupported?
    requires AllSupported(ds[..i])
    ensures AllSupported(ds[..i + 1])
    ensures LedgerOutput(ds[..i + 1]) == LedgerOutput(ds[..i]) + DirectiveText(ds[i]).value + "\n"
  {
    assert ds[..i + 1] == ds[..i] + [ds[i]];
    LedgerOutputAppend(ds[..i], [ds[i]]);
    assert [ds[i]][1..] == [];
  }
}
