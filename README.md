# Bitcoin price fetcher: normaliser, fallback and selection

`api_fetcher.py` asks for an API URL, tries it and then four fixed backup
sources, normalises the first usable JSON response into a map from currency
code to price, and lets the user pick the currencies to show. Each price is
shown after its currency's symbol. This project models the deterministic
part of that pipeline and proves what each step promises:

- `Parse`: `parse_response`. JSON is modelled as a datatype whose objects
  keep their members in order, because Python dicts keep insertion order.
  Python's exceptions are modelled as `Eval` results:
  - `KeyError` and `AttributeError` are caught and give `None`.
  - The uncaught `TypeError` (subscripting a member that is not a dict) is
    the precondition `!Crashes`.
  - `str(v)` stays symbolic, as `Price.Str(v)`.
- `Fallback`: the candidate list `[api_url] + BACKUP_APIS` and the loop in
  `main` that stops at the first non-empty parse. The loop is a method over
  the outcome each fetch would have. It also counts how many candidates were
  fetched.
- `Selection`: one round of `select_currencies` (strip, upper-case, split on
  commas, validate) and the re-prompting loop over a sequence of replies,
  then the filter of `main`.
- `Symbols`: `CURRENCY_SYMBOLS` and the symbol prefix of `format_price`.
- `Text`, `Json`, `Wrappers`: Python's `in` on strings, `upper`, `strip` and
  `split`, plus JSON values and dict lookup.

Only the coingecko rule upper-cases keys; the others keep the member names
as given. `parse_response` is annotated as returning `Dict[str, str]`, but
the coindesk rule stores `info["rate"]` itself rather than `str(...)` of it,
so its prices are `Raw` values.

## Model

| member | source | states |
|---|---|---|
| Text.Contains | api_fetcher.py:50-56 | Python's `sub in s`: a name longer than the URL never occurs in it |
| Text.Upper | api_fetcher.py:88 | `upper()` keeps the length and maps each ASCII lower-case letter to its capital |
| Text.UpperIdempotent | api_fetcher.py:53 | upper-casing an upper-cased code changes nothing |
| Text.StripShape | api_fetcher.py:78 | `strip()` gives the empty string exactly when the text is all white space; otherwise the result neither starts nor ends with white space |
| Text.TrimStartShape | api_fetcher.py:78 | the leading part `strip()` removes is white space, and the rest is kept as it was |
| Text.TrimEndShape | api_fetcher.py:78 | the trailing part `strip()` removes is white space, and the rest is kept as it was |
| Text.StripIdempotent | api_fetcher.py:78 | stripping twice is stripping once |
| Text.Strip | api_fetcher.py:78 | `strip()` never lengthens its input (its shape is stated by `Text.StripShape`) |
| Text.StripKeepsOnly | api_fetcher.py:93 | every character `strip()` keeps was in its input |
| Text.Split | api_fetcher.py:93 | `split(",")` yields at least one piece and no piece holds a comma |
| Text.JoinSplit | api_fetcher.py:93 | joining the pieces of `split` with the separator gives back the text |
| Text.SplitJoin | api_fetcher.py:93 | splitting a join of separator-free pieces gives back those pieces |
| Text.MissingCharNotContained | api_fetcher.py:50-56 | a string lacking one character of a name does not contain that name |
| Parse.SchemaOf | api_fetcher.py:50-56 | a URL has no rule exactly when it names none of `coindesk`, `coingecko`, `blockchain`, `coinbase` |
| Parse.Get | api_fetcher.py:51-57 | `.get(key, default)` works only on a dict; a missing key gives the default, and a present key gives that member's value |
| Parse.Items | api_fetcher.py:51-57 | `.items()` works only on a dict, and otherwise raises `AttributeError` |
| Parse.Subscript | api_fetcher.py:51-55 | `obj[key]` raises `TypeError` exactly on a non-dict, succeeds on a dict exactly when the key is present, and then gives that member's value |
| Parse.SubscriptMember | api_fetcher.py:51-55 | in a dict, each member's key subscripts to its own value |
| Parse.EachField | api_fetcher.py:51 | a comprehension that subscripts each member never raises `AttributeError` |
| Parse.EachFieldOk | api_fetcher.py:51 | `{curr: info[field] ...}` succeeds exactly when every member is a dict with the field |
| Parse.EachFieldKeys | api_fetcher.py:55 | a successful comprehension has exactly the members' keys |
| Parse.EachFieldValue | api_fetcher.py:55 | with distinct keys, each key maps to its own member's field, passed through `str()` when the rule does so |
| Parse.EachFieldTypeError | api_fetcher.py:51 | the comprehension raises `TypeError` exactly when it meets a non-dict member before any member lacking the field |
| Parse.UpperKeys | api_fetcher.py:53 | the first member's upper-cased key is always in the result |
| Parse.UpperKeysDomain | api_fetcher.py:53 | the coingecko keys are exactly the upper-cased member keys |
| Parse.UpperKeysLastWins | api_fetcher.py:53 | a key maps to `str()` of the last member that upper-cases to it |
| Parse.AllButBtcKeys | api_fetcher.py:57-58 | the coinbase keys are all rate keys except `BTC` |
| Parse.AllButBtcValue | api_fetcher.py:57-58 | with distinct keys, each kept currency maps to `str()` of its own rate |
| Parse.AllButBtc | api_fetcher.py:57-58 | the coinbase comprehension never yields `BTC` |
| Parse.Evaluate | api_fetcher.py:49-58 | the body returns no map (`None`) exactly when no rule matches, and only the coindesk and blockchain rules can raise `TypeError` |
| Parse.ParseResponse | api_fetcher.py:47-61 | an unmatched URL gives `None`, and so does a body that is not a JSON object |
| Parse.OnlySubscriptsCrash | api_fetcher.py:51-59 | only the coindesk and blockchain rules can raise the uncaught `TypeError` |
| Parse.NoRuleNoPrices | api_fetcher.py:50-61 | a URL naming none of the four sources yields `None` for every body |
| Parse.FirstNamedRuleWins | api_fetcher.py:50-56 | rules are tried in the order coindesk, coingecko, blockchain, coinbase |
| Parse.CoindeskRule | api_fetcher.py:50-51 | prices come back exactly when every `bpi` member has a `rate`, keyed by member name; otherwise `None`, never a partial map |
| Parse.CoindeskPrice | api_fetcher.py:51 | each currency maps to its own `rate`, unconverted |
| Parse.CoindeskWithoutBpi | api_fetcher.py:51 | a body without `bpi` gives an empty map |
| Parse.CoindeskBpiNotDict | api_fetcher.py:50-61 | a `bpi` present but not a dict raises `AttributeError`, which is caught: `None` |
| Parse.CoingeckoRule | api_fetcher.py:52-53 | the result is the upper-cased members of `bitcoin`, and its keys are exactly their upper-cased codes |
| Parse.CoingeckoPrice | api_fetcher.py:53 | every key is upper case, and a code maps to `str()` of its price unless a later member collides |
| Parse.CoingeckoWithoutBitcoin | api_fetcher.py:53 | a body without `bitcoin` gives an empty map, not `None` |
| Parse.CoingeckoBitcoinNotDict | api_fetcher.py:52-61 | a `bitcoin` present but not a dict (e.g. `null`) raises `AttributeError`, which is caught: `None` |
| Parse.BlockchainRule | api_fetcher.py:54-55 | prices come back exactly when every member has a `last`, keyed by member name |
| Parse.BlockchainPrice | api_fetcher.py:55 | each currency maps to `str()` of its own `last` |
| Parse.BlockchainMissingLast | api_fetcher.py:54-61 | at the first member lacking `last`, a dict gives `None` (no partial map) and a non-dict raises the uncaught `TypeError` |
| Parse.CoinbaseRule | api_fetcher.py:56-58 | the result's keys are the keys of `data.rates` minus `BTC` |
| Parse.CoinbaseWithoutRates | api_fetcher.py:57 | a body without `data`, or whose `data` has no `rates`, gives an empty map |
| Parse.CoinbaseDataNotDict | api_fetcher.py:56-61 | a `data` present but not a dict raises `AttributeError`, which is caught: `None` |
| Parse.CoinbaseRatesNotDict | api_fetcher.py:56-61 | a `rates` present but not a dict raises `AttributeError`, which is caught: `None` |
| Parse.CoinbasePrice | api_fetcher.py:57 | each kept currency maps to `str()` of its own rate |
| Parse.CoinbaseNeverBtc | api_fetcher.py:56-58 | coinbase never reports `BTC` and never crashes, whatever the body |
| Json.Truthy | api_fetcher.py:141-143 | `null`, `{}`, `[]` and `""` are falsy, so `if data:` skips them |
| Fallback.Candidates | api_fetcher.py:138 | the user's URL first, then the four backups in order |
| Fallback.Fetched | api_fetcher.py:140-141 | `if data:` passes only a fetched, truthy body: never `None`, `null` or `{}` |
| Fallback.NonEmpty | api_fetcher.py:143-146 | `if prices:` holds only for a non-empty map, so `None` and `{}` both fail it |
| Fallback.Succeeds | api_fetcher.py:141-144 | a candidate ends the loop only if its body was fetched, is a JSON object and its URL has a rule |
| Fallback.LastParse | api_fetcher.py:137-142 | `prices` is only ever set from a body that was fetched |
| Fallback.ResolvePrices | api_fetcher.py:137-145 | the result is the parse of the first candidate whose fetch is truthy and whose parse is non-empty, and no later candidate is fetched; if none qualifies, every candidate was tried and the result is falsy |
| Fallback.LastParseStep | api_fetcher.py:141-142 | one more attempt leaves `prices` as that candidate's parse if its body was truthy, and unchanged otherwise |
| Fallback.NoWinnerYetMeansSafe | api_fetcher.py:138-143 | with no winner yet, the next candidate is parsed without the uncaught error |
| Fallback.DefaultApiLacksKAndB | api_fetcher.py:11 | the default URL has no `k` and no `b` |
| Fallback.DefaultApiNamesNoSource | api_fetcher.py:11 | the default URL names none of the four sources |
| Fallback.DefaultApiHasNoRule | api_fetcher.py:11 | the default URL's response always parses to `None` |
| Fallback.DefaultApiNeverWins | api_fetcher.py:135-144 | an attempt on the default URL never ends the loop |
| Selection.Normalise | api_fetcher.py:78-88 | the stripped, upper-cased reply is empty exactly when the reply is all white space |
| Selection.Pieces | api_fetcher.py:93 | a normalised reply always has at least one piece, one per comma-separated field |
| Selection.PiecesShape | api_fetcher.py:93 | each piece is comma-free and already stripped |
| Selection.Invalid | api_fetcher.py:94 | no refused code is on offer, and there are no more of them than pieces |
| Selection.InvalidMembers | api_fetcher.py:94 | the refused codes are exactly the pieces not on offer |
| Selection.SelectOnce | api_fetcher.py:88-97 | a refused reply has text in it, and its refused list is non-empty and holds only codes not on offer |
| Selection.BlankSelectsAll | api_fetcher.py:90-91 | a blank reply selects exactly `available` |
| Selection.SelectionIsAllOrNothing | api_fetcher.py:93-97 | a non-blank reply is accepted exactly when every stripped, upper-cased piece is on offer, and then the pieces are the selection; otherwise the refused codes are exactly the pieces not on offer |
| Selection.AcceptedCodesAreAvailable | api_fetcher.py:90-97 | every accepted code is on offer |
| Selection.SelectCurrencies | api_fetcher.py:84-98 | the user is asked again after every refused reply, and the first accepted reply's codes are returned |
| Selection.FilterPrices | api_fetcher.py:155 | the filter keeps only selected keys of `prices`, with their values |
| Selection.FilterKeepsSelected | api_fetcher.py:155 | the filtered keys are exactly `prices.keys()` intersected with the selection, values unchanged, and filtering again changes nothing |
| Selection.SelectThenFilter | api_fetcher.py:154-155 | selecting from the prices' own keys: blank keeps every price, an accepted reply keeps exactly the named currencies, and non-empty prices never filter down to nothing |
| Symbols.SymbolFor | api_fetcher.py:65 | a code gets a one-character symbol exactly when it is one of the six listed codes, and `''` otherwise |
| Symbols.ListedSymbols | api_fetcher.py:21-24 | the listed symbols, code by code |
| Symbols.FormatPrice | api_fetcher.py:63-71 | every formatted price starts with its currency's symbol |
| Symbols.FormatKeepsSymbol | api_fetcher.py:63-71 | a formatted price starts with its symbol, and a price that is not a number follows it unchanged |

## Left out

- `fetch_data` and `check_internet` (api_fetcher.py:29-45) are HTTP and socket I/O. Fetches become a given sequence of outcomes, one per candidate.
- The numeric branch of `format_price` (api_fetcher.py:66-69) uses `float()` and `:,.2f` rounding, which are floating point. `Symbols.FormatPrice` takes that text as a parameter, `None` where `float()` raises `ValueError`.
- `format_price` is applied to the raw coindesk rate. A rate that is not a string would make its `replace` raise; this is not modelled.
- `generate_report` (api_fetcher.py:103-117) writes a file and reads the clock.
- Prompts, prints and stderr diagnostics are console I/O. So are `input` and the sorted list of available codes (api_fetcher.py:83).
- `Selection.SelectCurrencies`: Python waits for input until a reply is accepted. Here, running out of replies gives `None`; Python would raise `EOFError`.
- Text.Upper: covers ASCII letters only; Python's Unicode case mapping (which can change the length) is not modelled.
- Text.Strip: covers ASCII white space only; Unicode white space is not modelled.
- JSON numbers are kept as values. Python's `str()` of them is symbolic (`Price.Str`), so the text a price prints as is not modelled.
- The backup URLs are not proved to select their own rules. Only the default URL is checked against the four names.
- `main`'s glue outside the fallback loop is not modelled: the `or DEFAULT_API` default, the `if not prices` exit and printing the filtered prices.
