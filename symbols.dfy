/** `CURRENCY_SYMBOLS` and its use in `format_price`: a price is shown after
    its currency's symbol, or after nothing for a currency without one. */
module Symbols {
  import opened Wrappers

  /** `CURRENCY_SYMBOLS`: the pound, euro, yen and bitcoin signs are U+00A3,
      U+20AC, U+00A5 and U+20BF. */
  const CurrencySymbols: map<string, string> := map[
    "USD" := "$", "GBP" := "\U{00A3}", "EUR" := "\U{20AC}",
    "JPY" := "\U{00A5}", "CNY" := "\U{00A5}", "BTC" := "\U{20BF}"
  ]

  /** `CURRENCY_SYMBOLS.get(currency, '')`: one character for the six listed
      codes, the empty string for every other. */
  function SymbolFor(currency: string): (r: string)
    ensures |r| <= 1
    ensures r == "" <==> currency !in {"USD", "GBP", "EUR", "JPY", "CNY", "BTC"}
  {
    if currency in CurrencySymbols then CurrencySymbols[currency] else ""
  }

  /** The listed symbols, code by code; yen and yuan share a sign. */
  lemma ListedSymbols()
    ensures SymbolFor("USD") == "$" && SymbolFor("GBP") == "\U{00A3}"
    ensures SymbolFor("EUR") == "\U{20AC}" && SymbolFor("BTC") == "\U{20BF}"
    ensures SymbolFor("JPY") == SymbolFor("CNY") == "\U{00A5}"
  {
  }

  /** `format_price(currency, price)`. `formatted` is what
      `f"{float(price.replace(',', '')):,.2f}"` gives, or `None` when
      `float()` raises `ValueError`; the text after the symbol is then the
      price as given. */
  function FormatPrice(currency: string, price: string, formatted: Option<string>): (r: string)
    ensures |r| >= |SymbolFor(currency)| && r[..|SymbolFor(currency)|] == SymbolFor(currency)
  {
    SymbolFor(currency) + (if formatted.Some? then formatted.value else price)
  }

  /** Every formatted price starts with its currency's symbol, and a price
      that is not a number is shown unchanged after it; so an unlisted
      currency's unparsable price is shown exactly as given. */
  lemma FormatKeepsSymbol(currency: string, price: string, formatted: Option<string>)
    ensures |FormatPrice(currency, price, formatted)| >= |SymbolFor(currency)|
    ensures FormatPrice(currency, price, formatted)[..|SymbolFor(currency)|] == SymbolFor(currency)
    ensures formatted == None ==>
      FormatPrice(currency, price, formatted)[|SymbolFor(currency)|..] == price
    ensures formatted == None && currency !in CurrencySymbols ==>
      FormatPrice(currency, price, formatted) == price
  {
  }
}
