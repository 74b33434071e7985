/** `parse_response`: normalising one source's JSON body into a map from
    currency code to price. The rule is chosen by a substring test on the
    source URL; the exceptions Python raises while evaluating the rule are
    modelled by `Eval`. */
module Parse {
  import opened Wrappers
  import opened Json
  import opened Text

  /** The four extraction rules, plus the URLs none of them matches. */
  datatype Schema = Coindesk | Coingecko | Blockchain | Coinbase | Unsupported

  /** The rule a URL selects: the first of the four names, in this order,
      that occurs in it. */
  function SchemaOf(url: string): (r: Schema)
    ensures r == Unsupported <==>
      !Contains(url, "coindesk") && !Contains(url, "coingecko")
      && !Contains(url, "blockchain") && !Contains(url, "coinbase")
  {
    if Contains(url, "coindesk") then Coindesk
    else if Contains(url, "coingecko") then Coingecko
    else if Contains(url, "blockchain") then Blockchain
    else if Contains(url, "coinbase") then Coinbase
    else Unsupported
  }

  /** The exceptions the rules can raise. */
  datatype Exc = KeyError | AttributeError | TypeError

  /** The outcome of evaluating a Python expression: a value or an exception. */
  datatype Eval<+T> = Ok(value: T) | Raised(exc: Exc) {
    predicate IsFailure() { Raised? }
    function PropagateFailure<U>(): Eval<U> requires Raised? { Raised(exc) }
    function Extract(): T requires Ok? { value }
  }

  /** A normalised price: the JSON value itself (`info["rate"]`), or the text
      Python's `str()` makes of it, kept symbolic. */
  datatype Price = Raw(value: Value) | Str(of: Value)

  type PriceMap = map<string, Price>

  const EmptyDict: Value := Object([])

  /** `obj.get(key, default)`: only a dict has `get`. */
  function Get(obj: Value, key: string, default: Value): (r: Eval<Value>)
    ensures r.Ok? <==> obj.Object?
    ensures obj.Object? && key !in Keys(obj.members) ==> r == Ok(default)
    ensures obj.Object? && key in Keys(obj.members) ==>
      exists k | 0 <= k < |obj.members| :: obj.members[k] == (key, r.value)
  {
    if !obj.Object? then Raised(AttributeError)
    else
      LookupFinds(obj.members, key);
      match Lookup(obj.members, key)
      case Some(v) => Ok(v)
      case None => Ok(default)
  }

  /** `obj.items()`: only a dict has `items`. */
  function Items(obj: Value): (r: Eval<seq<(string, Value)>>)
    ensures r.Ok? <==> obj.Object?
    ensures r.Raised? ==> r.exc == AttributeError
  {
    if obj.Object? then Ok(obj.members) else Raised(AttributeError)
  }

  /** `obj[key]` with a string key: a missing key raises `KeyError`; a list,
      string, number, boolean or null cannot take a string subscript. */
  function Subscript(obj: Value, key: string): (r: Eval<Value>)
    ensures r == Raised(TypeError) <==> !obj.Object?
    ensures obj.Object? ==> (r.Ok? <==> key in Keys(obj.members))
    ensures r.Raised? ==> r.exc != AttributeError
    ensures r.Ok? ==> exists k | 0 <= k < |obj.members| :: obj.members[k] == (key, r.value)
  {
    if !obj.Object? then Raised(TypeError)
    else
      LookupFinds(obj.members, key);
      match Lookup(obj.members, key)
      case Some(v) => Ok(v)
      case None => Raised(KeyError)
  }

  /** In a dict, each member's key subscripts to that member's value. */
  lemma SubscriptMember(obj: Value, k: nat)
    requires obj.Object? && DistinctKeys(obj.members) && k < |obj.members|
    ensures Subscript(obj, obj.members[k].0) == Ok(obj.members[k].1)
  {
    LookupDistinct(obj.members, k);
  }

  /** `obj[key]` succeeds. */
  predicate HasField(obj: Value, key: string) {
    obj.Object? && Lookup(obj.members, key).Some?
  }

  function FieldOf(obj: Value, key: string): Value
    requires HasField(obj, key)
  {
    Lookup(obj.members, key).value
  }

  /** `str(v)` when `shown`, else `v` itself. */
  function Wrap(v: Value, shown: bool): Price {
    if shown then Str(v) else Raw(v)
  }

  /** `{curr: info[field] for curr, info in ms}`, with the value passed through
      `str()` when `shown`. Members are visited in order and the first failing
      subscript ends the comprehension with its exception. */
  function EachField(ms: seq<(string, Value)>, field: string, shown: bool): (r: Eval<PriceMap>)
    ensures r.Raised? ==> r.exc != AttributeError
  {
    if ms == [] then Ok(map[])
    else
      var v :- Subscript(ms[0].1, field);
      var rest :- EachField(ms[1..], field, shown);
      Ok(map[ms[0].0 := Wrap(v, shown)] + rest)
  }

  /** The comprehension succeeds exactly when every member is a dict with
      the field. */
  lemma {:induction false} EachFieldOk(ms: seq<(string, Value)>, field: string, shown: bool)
    ensures EachField(ms, field, shown).Ok? <==> forall i | 0 <= i < |ms| :: HasField(ms[i].1, field)
  {
    if ms != [] {
      EachFieldOk(ms[1..], field, shown);
      assert forall i | 1 <= i < |ms| :: ms[i] == ms[1..][i - 1];
    }
  }

  /** A successful comprehension has exactly the members' keys. */
  lemma {:induction false} EachFieldKeys(ms: seq<(string, Value)>, field: string, shown: bool)
    requires EachField(ms, field, shown).Ok?
    ensures EachField(ms, field, shown).value.Keys == Keys(ms)
  {
    if ms != [] {
      EachFieldKeys(ms[1..], field, shown);
      KeysCons(ms);
    }
  }

  /** With distinct keys, each member's key maps to its own field. */
  lemma {:induction false} EachFieldValue(ms: seq<(string, Value)>, field: string, shown: bool, i: nat)
    requires EachField(ms, field, shown).Ok? && DistinctKeys(ms) && i < |ms|
    ensures HasField(ms[i].1, field)
    ensures ms[i].0 in EachField(ms, field, shown).value
    ensures EachField(ms, field, shown).value[ms[i].0] == Wrap(FieldOf(ms[i].1, field), shown)
  {
    var tail := ms[1..];
    if i == 0 {
      EachFieldKeys(tail, field, shown);
    } else {
      DistinctTail(ms);
      assert ms[i] == tail[i - 1];
      EachFieldValue(tail, field, shown, i - 1);
    }
  }

  /** The comprehension raises `TypeError` exactly when, before any member
      without the field, it meets a member that is not a dict. */
  lemma {:induction false} EachFieldTypeError(ms: seq<(string, Value)>, field: string, shown: bool)
    ensures EachField(ms, field, shown) == Raised(TypeError) <==>
      exists i | 0 <= i < |ms| :: !ms[i].1.Object? && forall j | 0 <= j < i :: HasField(ms[j].1, field)
  {
    if ms != [] {
      var tail := ms[1..];
      EachFieldTypeError(tail, field, shown);
      if HasField(ms[0].1, field) {
        if EachField(tail, field, shown) == Raised(TypeError) {
          var i :| 0 <= i < |tail| && !tail[i].1.Object? && forall j | 0 <= j < i :: HasField(tail[j].1, field);
          assert ms[i + 1] == tail[i];
          forall j | 0 <= j < i + 1 ensures HasField(ms[j].1, field) {
            if j > 0 { assert ms[j] == tail[j - 1]; }
          }
        } else {
          forall i | 0 <= i < |ms| && !ms[i].1.Object?
            ensures exists j | 0 <= j < i :: !HasField(ms[j].1, field)
          {
            assert ms[i] == tail[i - 1];
            var j :| 0 <= j < i - 1 && !HasField(tail[j].1, field);
            assert ms[j + 1] == tail[j];
          }
        }
      }
    }
  }

  /** `{curr.upper(): str(price) for curr, price in ms}`: when two keys
      upper-case alike, the later member's value stays. */
  function UpperKeys(ms: seq<(string, Value)>): (r: PriceMap)
    ensures ms != [] ==> Upper(ms[0].0) in r
  {
    if ms == [] then map[]
    else map[Upper(ms[0].0) := Str(ms[0].1)] + UpperKeys(ms[1..])
  }

  /** The result's keys are exactly the upper-cased member keys. */
  lemma {:induction false} UpperKeysDomain(ms: seq<(string, Value)>)
    ensures UpperKeys(ms).Keys == set i | 0 <= i < |ms| :: Upper(ms[i].0)
  {
    if ms != [] {
      UpperKeysDomain(ms[1..]);
      assert forall i | 1 <= i < |ms| :: ms[i] == ms[1..][i - 1];
      assert (set i | 0 <= i < |ms| :: Upper(ms[i].0))
        == {Upper(ms[0].0)} + set i | 0 <= i < |ms[1..]| :: Upper(ms[1..][i].0);
    }
  }

  /** A key maps to `str()` of the last member that upper-cases to it. */
  lemma {:induction false} UpperKeysLastWins(ms: seq<(string, Value)>, i: nat)
    requires i < |ms|
    requires forall j | i < j < |ms| :: Upper(ms[j].0) != Upper(ms[i].0)
    ensures Upper(ms[i].0) in UpperKeys(ms)
    ensures UpperKeys(ms)[Upper(ms[i].0)] == Str(ms[i].1)
  {
    var tail := ms[1..];
    if i == 0 {
      UpperKeysDomain(tail);
      forall j | 0 <= j < |tail| ensures Upper(tail[j].0) != Upper(ms[0].0) {
        assert tail[j] == ms[j + 1];
      }
    } else {
      assert ms[i] == tail[i - 1];
      forall j | i - 1 < j < |tail| ensures Upper(tail[j].0) != Upper(tail[i - 1].0) {
        assert tail[j] == ms[j + 1];
      }
      UpperKeysLastWins(tail, i - 1);
    }
  }

  /** `{curr: str(rate) for curr, rate in ms if curr != "BTC"}`. */
  function AllButBtc(ms: seq<(string, Value)>): (r: PriceMap)
    ensures "BTC" !in r
  {
    if ms == [] then map[]
    else if ms[0].0 == "BTC" then AllButBtc(ms[1..])
    else map[ms[0].0 := Str(ms[0].1)] + AllButBtc(ms[1..])
  }

  /** Every key but `BTC` is kept, and `BTC` never is. */
  lemma {:induction false} AllButBtcKeys(ms: seq<(string, Value)>)
    ensures AllButBtc(ms).Keys == Keys(ms) - {"BTC"}
  {
    if ms != [] {
      AllButBtcKeys(ms[1..]);
      KeysCons(ms);
    }
  }

  /** With distinct keys, each kept key maps to `str()` of its own rate. */
  lemma {:induction false} AllButBtcValue(ms: seq<(string, Value)>, i: nat)
    requires DistinctKeys(ms) && i < |ms| && ms[i].0 != "BTC"
    ensures ms[i].0 in AllButBtc(ms) && AllButBtc(ms)[ms[i].0] == Str(ms[i].1)
  {
    var tail := ms[1..];
    if i == 0 {
      AllButBtcKeys(tail);
    } else {
      DistinctTail(ms);
      assert ms[i] == tail[i - 1];
      AllButBtcValue(tail, i - 1);
    }
  }

  /** The body of `parse_response` up to its `except` clause: the value the
      selected rule returns, or the exception it raises. */
  function Evaluate(data: Value, source: string): (r: Eval<Option<PriceMap>>)
    ensures r == Ok(None) <==> SchemaOf(source) == Unsupported
    ensures r.Raised? && r.exc == TypeError ==> SchemaOf(source) in {Coindesk, Blockchain}
  {
    match SchemaOf(source)
    case Coindesk =>
      var bpi :- Get(data, "bpi", EmptyDict);
      var ms :- Items(bpi);
      var m :- EachField(ms, "rate", false);
      Ok(Some(m))
    case Coingecko =>
      var bitcoin :- Get(data, "bitcoin", EmptyDict);
      var ms :- Items(bitcoin);
      Ok(Some(UpperKeys(ms)))
    case Blockchain =>
      var ms :- Items(data);
      var m :- EachField(ms, "last", true);
      Ok(Some(m))
    case Coinbase =>
      var outer :- Get(data, "data", EmptyDict);
      var rates :- Get(outer, "rates", EmptyDict);
      var ms :- Items(rates);
      Ok(Some(AllButBtc(ms)))
    case Unsupported => Ok(None)
  }

  /** The rule raises the `TypeError` that `parse_response` does not catch. */
  predicate Crashes(data: Value, source: string) {
    Evaluate(data, source) == Raised(TypeError)
  }

  /** `parse_response(data, source)`: `KeyError` and `AttributeError` become
      `None`, never a partial map. */
  function ParseResponse(data: Value, source: string): (r: Option<PriceMap>)
    requires !Crashes(data, source)
    ensures SchemaOf(source) == Unsupported ==> r == None
    ensures !data.Object? ==> r == None
  {
    match Evaluate(data, source)
    case Ok(r) => r
    case Raised(_) => None
  }

  /** Only the two rules that subscript each member can raise the uncaught
      `TypeError`, and only on a member that is not a dict. */
  lemma OnlySubscriptsCrash(data: Value, source: string)
    requires Crashes(data, source)
    ensures SchemaOf(source) == Coindesk || SchemaOf(source) == Blockchain
  {
  }

  /** A URL naming none of the four sources has no rule: `None` for any body. */
  lemma NoRuleNoPrices(data: Value, url: string)
    requires !Contains(url, "coindesk") && !Contains(url, "coingecko")
    requires !Contains(url, "blockchain") && !Contains(url, "coinbase")
    ensures !Crashes(data, url) && ParseResponse(data, url) == None
  {
  }

  /** The rules are tried in the order coindesk, coingecko, blockchain,
      coinbase: a URL naming several gets the first of them. */
  lemma FirstNamedRuleWins(url: string)
    ensures Contains(url, "coindesk") ==> SchemaOf(url) == Coindesk
    ensures !Contains(url, "coindesk") && Contains(url, "coingecko") ==> SchemaOf(url) == Coingecko
    ensures !Contains(url, "coindesk") && !Contains(url, "coingecko") && Contains(url, "blockchain")
      ==> SchemaOf(url) == Blockchain
    ensures SchemaOf(url) == Coinbase <==>
      !Contains(url, "coindesk") && !Contains(url, "coingecko") && !Contains(url, "blockchain")
      && Contains(url, "coinbase")
  {
  }

  /** Coindesk: with `bpi` a dict, prices come back exactly when every
      member has a `rate`, keyed by the member names; one member without
      it gives `None`, never a partial map. */
  lemma CoindeskRule(data: Value, url: string, ms: seq<(string, Value)>)
    requires SchemaOf(url) == Coindesk && !Crashes(data, url)
    requires data.Object? && Lookup(data.members, "bpi") == Some(Object(ms))
    ensures ParseResponse(data, url).Some? <==> forall i | 0 <= i < |ms| :: HasField(ms[i].1, "rate")
    ensures ParseResponse(data, url).Some? ==> ParseResponse(data, url).value.Keys == Keys(ms)
  {
    EachFieldOk(ms, "rate", false);
    if EachField(ms, "rate", false).Ok? {
      EachFieldKeys(ms, "rate", false);
    }
  }

  /** Coindesk: each currency maps to its own `rate`, unconverted. */
  lemma CoindeskPrice(data: Value, url: string, ms: seq<(string, Value)>, i: nat)
    requires SchemaOf(url) == Coindesk && !Crashes(data, url)
    requires data.Object? && Lookup(data.members, "bpi") == Some(Object(ms))
    requires DistinctKeys(ms) && i < |ms| && ParseResponse(data, url).Some?
    ensures HasField(ms[i].1, "rate")
    ensures ms[i].0 in ParseResponse(data, url).value
    ensures ParseResponse(data, url).value[ms[i].0] == Raw(FieldOf(ms[i].1, "rate"))
  {
    EachFieldValue(ms, "rate", false, i);
  }

  /** Coindesk: a body without `bpi` has no prices but is not a failure. */
  lemma CoindeskWithoutBpi(data: Value, url: string)
    requires SchemaOf(url) == Coindesk
    requires data.Object? && Lookup(data.members, "bpi") == None
    ensures !Crashes(data, url) && ParseResponse(data, url) == Some(map[])
  {
  }

  /** Coindesk: a `bpi` that is present but not a dict has no `items`; the
      `AttributeError` is caught and gives `None`. */
  lemma CoindeskBpiNotDict(data: Value, url: string, bpi: Value)
    requires SchemaOf(url) == Coindesk && data.Object?
    requires Lookup(data.members, "bpi") == Some(bpi) && !bpi.Object?
    ensures !Crashes(data, url) && ParseResponse(data, url) == None
  {
    LookupFinds(data.members, "bpi");
  }

  /** Coingecko: the currencies under `bitcoin`, upper-cased, each mapped
      to `str()` of its price. */
  lemma CoingeckoRule(data: Value, url: string, ms: seq<(string, Value)>)
    requires SchemaOf(url) == Coingecko
    requires data.Object? && Lookup(data.members, "bitcoin") == Some(Object(ms))
    ensures !Crashes(data, url) && ParseResponse(data, url) == Some(UpperKeys(ms))
    ensures ParseResponse(data, url).value.Keys == set i | 0 <= i < |ms| :: Upper(ms[i].0)
  {
    UpperKeysDomain(ms);
  }

  /** Coingecko: each key of the result is upper case, and a currency keeps
      its own price when no later member upper-cases alike. */
  lemma CoingeckoPrice(data: Value, url: string, ms: seq<(string, Value)>, i: nat)
    requires SchemaOf(url) == Coingecko
    requires data.Object? && Lookup(data.members, "bitcoin") == Some(Object(ms))
    requires i < |ms| && forall j | i < j < |ms| :: Upper(ms[j].0) != Upper(ms[i].0)
    ensures !Crashes(data, url) && ParseResponse(data, url).Some?
    ensures Upper(ms[i].0) in ParseResponse(data, url).value
    ensures ParseResponse(data, url).value[Upper(ms[i].0)] == Str(ms[i].1)
    ensures Upper(Upper(ms[i].0)) == Upper(ms[i].0)
  {
    UpperKeysLastWins(ms, i);
    UpperIdempotent(ms[i].0);
  }

  /** Coingecko: a body without `bitcoin` gives an empty map, not `None`. */
  lemma CoingeckoWithoutBitcoin(data: Value, url: string)
    requires SchemaOf(url) == Coingecko
    requires data.Object? && Lookup(data.members, "bitcoin") == None
    ensures !Crashes(data, url) && ParseResponse(data, url) == Some(map[])
  {
  }

  /** Coingecko: a `bitcoin` that is present but not a dict (`null`, a
      number, a list) has no `items`; the `AttributeError` gives `None`. */
  lemma CoingeckoBitcoinNotDict(data: Value, url: string, bitcoin: Value)
    requires SchemaOf(url) == Coingecko && data.Object?
    requires Lookup(data.members, "bitcoin") == Some(bitcoin) && !bitcoin.Object?
    ensures !Crashes(data, url) && ParseResponse(data, url) == None
  {
    LookupFinds(data.members, "bitcoin");
  }

  /** Blockchain: the body is the dict of currencies; prices come back
      exactly when every member has a `last`, keyed by the member names. */
  lemma BlockchainRule(data: Value, url: string)
    requires SchemaOf(url) == Blockchain && !Crashes(data, url) && data.Object?
    ensures ParseResponse(data, url).Some? <==>
      forall i | 0 <= i < |data.members| :: HasField(data.members[i].1, "last")
    ensures ParseResponse(data, url).Some? ==> ParseResponse(data, url).value.Keys == Keys(data.members)
  {
    EachFieldOk(data.members, "last", true);
    if EachField(data.members, "last", true).Ok? {
      EachFieldKeys(data.members, "last", true);
    }
  }

  /** Blockchain: each currency maps to `str()` of its own `last`. */
  lemma BlockchainPrice(data: Value, url: string, i: nat)
    requires SchemaOf(url) == Blockchain && !Crashes(data, url) && data.Object? && DistinctKeys(data.members)
    requires i < |data.members| && ParseResponse(data, url).Some?
    ensures HasField(data.members[i].1, "last")
    ensures data.members[i].0 in ParseResponse(data, url).value
    ensures ParseResponse(data, url).value[data.members[i].0] == Str(FieldOf(data.members[i].1, "last"))
  {
    EachFieldValue(data.members, "last", true, i);
  }

  /** Blockchain: a member that is a dict without `last` discards every
      price; one that is not a dict at all is the uncaught `TypeError`. */
  lemma BlockchainMissingLast(data: Value, url: string, i: nat)
    requires SchemaOf(url) == Blockchain && data.Object? && i < |data.members|
    requires forall j | 0 <= j < i :: HasField(data.members[j].1, "last")
    ensures data.members[i].1.Object? && !HasField(data.members[i].1, "last")
      ==> !Crashes(data, url) && ParseResponse(data, url) == None
    ensures !data.members[i].1.Object? ==> Crashes(data, url)
  {
    EachFieldOk(data.members, "last", true);
    EachFieldTypeError(data.members, "last", true);
  }

  /** Coinbase: every rate under `data.rates` except `BTC`, as `str()`. */
  lemma CoinbaseRule(data: Value, url: string, d: seq<(string, Value)>, ms: seq<(string, Value)>)
    requires SchemaOf(url) == Coinbase
    requires data.Object? && Lookup(data.members, "data") == Some(Object(d))
    requires Lookup(d, "rates") == Some(Object(ms))
    ensures !Crashes(data, url) && ParseResponse(data, url) == Some(AllButBtc(ms))
    ensures ParseResponse(data, url).value.Keys == Keys(ms) - {"BTC"}
  {
    AllButBtcKeys(ms);
  }

  /** Coinbase: a body without `data`, or whose `data` has no `rates`, has
      no prices but is not a failure. */
  lemma CoinbaseWithoutRates(data: Value, url: string)
    requires SchemaOf(url) == Coinbase && data.Object?
    requires Lookup(data.members, "data") == None
      || (Lookup(data.members, "data").Some? && Lookup(data.members, "data").value.Object?
          && Lookup(Lookup(data.members, "data").value.members, "rates") == None)
    ensures !Crashes(data, url) && ParseResponse(data, url) == Some(map[])
  {
  }

  /** Coinbase: a `data` that is present but not a dict has no `get`; the
      `AttributeError` gives `None`. */
  lemma CoinbaseDataNotDict(data: Value, url: string, d: Value)
    requires SchemaOf(url) == Coinbase && data.Object?
    requires Lookup(data.members, "data") == Some(d) && !d.Object?
    ensures !Crashes(data, url) && ParseResponse(data, url) == None
  {
    LookupFinds(data.members, "data");
  }

  /** Coinbase: a `rates` that is present but not a dict has no `items`; the
      `AttributeError` gives `None`. */
  lemma CoinbaseRatesNotDict(data: Value, url: string, d: seq<(string, Value)>, rates: Value)
    requires SchemaOf(url) == Coinbase && data.Object?
    requires Lookup(data.members, "data") == Some(Object(d))
    requires Lookup(d, "rates") == Some(rates) && !rates.Object?
    ensures !Crashes(data, url) && ParseResponse(data, url) == None
  {
    LookupFinds(data.members, "data");
    LookupFinds(d, "rates");
  }

  /** Coinbase: each kept currency maps to `str()` of its own rate. */
  lemma CoinbasePrice(data: Value, url: string, d: seq<(string, Value)>, ms: seq<(string, Value)>, i: nat)
    requires SchemaOf(url) == Coinbase
    requires data.Object? && Lookup(data.members, "data") == Some(Object(d))
    requires Lookup(d, "rates") == Some(Object(ms))
    requires DistinctKeys(ms) && i < |ms| && ms[i].0 != "BTC"
    ensures !Crashes(data, url) && ParseResponse(data, url).Some?
    ensures ms[i].0 in ParseResponse(data, url).value
    ensures ParseResponse(data, url).value[ms[i].0] == Str(ms[i].1)
  {
    AllButBtcValue(ms, i);
  }

  /** Coinbase never reports a `BTC` price, whatever the body. */
  lemma CoinbaseNeverBtc(data: Value, url: string)
    requires SchemaOf(url) == Coinbase
    ensures !Crashes(data, url)
    ensures ParseResponse(data, url).Some? ==> "BTC" !in ParseResponse(data, url).value
  {
    if Evaluate(data, url).Ok? && Evaluate(data, url).value.Some? {
      var outer := Get(data, "data", EmptyDict).value;
      var rates := Get(outer, "rates", EmptyDict).value;
      AllButBtcKeys(rates.members);
    }
  }
}
