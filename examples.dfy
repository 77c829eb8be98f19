/** Concrete directives and the exact text the renderer writes for them. */
module Scenarios {
  import opened Core
  import opened Text
  import opened Syntax

  const Checking := Account(Assets, ["Bank", "Checking"])

  lemma CheckingText()
    ensures AccountText(Checking) == "Assets:Bank:Checking"
  {
    assert Join(["Checking"], ":") == "Checking";
    assert Join(["Bank", "Checking"], ":") == "Bank" + ":" + "Checking";
  }

  /** An `open` of Assets:Bank:Checking for USD with strict booking: the
      first currency follows the account with no space between them. */
  lemma OpenWithOneCurrency()
    ensures OpenText(Open("2023-01-01", Checking, ["USD"], Strict, []))
         == "2023-01-01" + " open " + "Assets:Bank:Checking" + "USD" + " \"strict\"" + "\n"
  {
    CheckingText();
    assert Join(["USD"], " ") == "USD";
  }

  /** Two currencies are separated by one space, and no booking writes no
      suffix. */
  lemma OpenWithTwoCurrencies()
    ensures OpenText(Open("2023-01-01", Checking, ["USD", "EUR"], Booking.None, []))
         == "2023-01-01" + " open " + "Assets:Bank:Checking" + "USD EUR" + "\n"
  {
    CheckingText();
    assert Join(["EUR"], " ") == "EUR";
    assert Join(["USD", "EUR"], " ") == "USD" + " " + "EUR";
  }

  lemma BalanceOfChecking()
    ensures BalanceText(Balance("2023-02-01", Checking, Amount("100.00", "USD"), []))
         == "2023-02-01" + " balance " + "Assets:Bank:Checking" + "\t" + "100.00 USD" + "\n"
  {
    CheckingText();
  }

  /** Metadata follows the first line, one tab-indented line per entry. */
  lemma CloseWithMetadata()
    ensures CloseText(Close("2024-01-01", Checking, [("note", "moved")]))
         == "2024-01-01" + " close " + "Assets:Bank:Checking" + "\n" + "\tnote: moved\n"
  {
    CheckingText();
  }

  /** A custom directive without arguments keeps the space after its name. */
  lemma CustomWithoutArguments()
    ensures CustomText(Custom("2024-01-01", "budget", [], []))
         == "2024-01-01 custom \"budget\" \n"
  {
  }

  /** An option is one line and carries no metadata. */
  lemma OptionLine()
    ensures OptionText(BcOption("title", "Books"))
         == "option \"title\" \"Books\"\n"
  {
  }

  /** A ledger whose second directive is unsupported keeps the first
      directive's text and its separating newline, and nothing else. */
  lemma LedgerWithUnsupported()
    ensures LedgerOutput([CommodityDirective(Commodity("2020-01-01", "USD", [])), Directive.Unsupported,
                          CommodityDirective(Commodity("2020-01-01", "EUR", []))])
         == "2020-01-01 commodity USD\n\n"
  {
    var ds := [CommodityDirective(Commodity("2020-01-01", "USD", [])), Directive.Unsupported,
               CommodityDirective(Commodity("2020-01-01", "EUR", []))];
    assert ds[1..][0] == Directive.Unsupported;
  }
}
