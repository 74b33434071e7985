/** The source list and the fallback loop of `main`: try the user's URL, then
    the fixed backups, stopping at the first source whose response parses to
    a non-empty map. Fetching is not modelled: the loop is given the outcome
    each fetch would have, `None` for a request that failed. */
module Fallback {
  import opened Wrappers
  import opened Json
  import opened Text
  import opened Parse

  /** `DEFAULT_API`, written in four pieces only so that the proofs about its
      characters stay small. */
  const DefaultApi: string := "https://api." + "exchangerate" + "-api.com/v4" + "/latest/USD"

  const BackupApis: seq<string> := [
    "https://api.coindesk.com/v2/bpi/currentprice.json",
    "https://api.coingecko.com/api/v3/simple/price?ids=bitcoin&vs_currencies=usd,eur,gbp,jpy,cny",
    "https://blockchain.info/ticker",
    "https://api.coinbase.com/v2/exchange-rates?currency=BTC"
  ]

  /** `[api_url] + BACKUP_APIS`. */
  function Candidates(apiUrl: string): (r: seq<string>)
    ensures |r| == 5 && r[0] == apiUrl && r[1..] == BackupApis
  {
    [apiUrl] + BackupApis
  }

  /** `if data:`: the fetch returned a truthy JSON value. */
  predicate Fetched(d: Option<Value>)
    ensures Fetched(d) ==> d != None && d != Some(Object([])) && d != Some(Null)
  {
    d.Some? && Truthy(d.value)
  }

  /** A fetched body does not make `parse_response` raise `TypeError`. */
  predicate Parsable(url: string, d: Option<Value>) {
    Fetched(d) ==> !Crashes(d.value, url)
  }

  /** `if prices:`: a map was returned and it is not empty. */
  predicate NonEmpty(p: Option<PriceMap>)
    ensures NonEmpty(p) ==> p != None && p != Some(map[])
  {
    p.Some? && p.value != map[]
  }

  /** The candidate ends the loop: its body was fetched and parses, without
      the uncaught `TypeError`, to a non-empty map. */
  predicate Succeeds(url: string, d: Option<Value>)
    ensures Succeeds(url, d) ==> Fetched(d) && d.value.Object? && SchemaOf(url) != Unsupported
  {
    Fetched(d) && !Crashes(d.value, url) && NonEmpty(ParseResponse(d.value, url))
  }

  /** `main` runs to the end of the loop without the uncaught `TypeError`:
      every candidate is parsed safely unless an earlier one has already won. */
  ghost predicate NoCrashBeforeWin(urls: seq<string>, fetched: seq<Option<Value>>)
    requires |urls| == |fetched|
  {
    forall i | 0 <= i < |urls| ::
      Parsable(urls[i], fetched[i]) || exists j | 0 <= j < i :: Succeeds(urls[j], fetched[j])
  }

  /** What the variable `prices` holds after the attempts `urls`: the parse of
      the last body that was fetched, or `None` if none was. */
  function LastParse(urls: seq<string>, fetched: seq<Option<Value>>): (r: Option<PriceMap>)
    requires |urls| == |fetched|
    requires forall i | 0 <= i < |urls| :: Parsable(urls[i], fetched[i])
    ensures r.Some? ==> exists i | 0 <= i < |urls| :: Fetched(fetched[i])
  {
    if urls == [] then None
    else
      var n := |urls| - 1;
      assert Parsable(urls[n], fetched[n]);
      if Fetched(fetched[n]) then ParseResponse(fetched[n].value, urls[n])
      else LastParse(urls[..n], fetched[..n])
  }

  /** The loop at the heart of `main`. `fetched[i]` is what `fetch_data`
      returns for the i-th candidate; `attempts` is how many candidates were
      fetched, so the candidates from `attempts` on are never requested. */
  method ResolvePrices(apiUrl: string, fetched: seq<Option<Value>>)
      returns (prices: Option<PriceMap>, attempts: nat)
    requires |fetched| == |Candidates(apiUrl)|
    requires NoCrashBeforeWin(Candidates(apiUrl), fetched)
    ensures 1 <= attempts <= |fetched|
    ensures forall j | 0 <= j < attempts :: Parsable(Candidates(apiUrl)[j], fetched[j])
    ensures prices == LastParse(Candidates(apiUrl)[..attempts], fetched[..attempts])
    ensures forall j | 0 <= j < attempts - 1 :: !Succeeds(Candidates(apiUrl)[j], fetched[j])
    ensures NonEmpty(prices) ==>
      && Succeeds(Candidates(apiUrl)[attempts - 1], fetched[attempts - 1])
      && prices == ParseResponse(fetched[attempts - 1].value, Candidates(apiUrl)[attempts - 1])
    ensures !NonEmpty(prices) ==> attempts == |fetched|
    ensures NonEmpty(prices) <==> exists i | 0 <= i < |fetched| :: Succeeds(Candidates(apiUrl)[i], fetched[i])
  {
    var urls := [apiUrl] + BackupApis;
    prices := None;
    attempts := 0;
    while attempts < |urls|
      invariant 0 <= attempts <= |urls| && urls == Candidates(apiUrl)
      invariant forall j | 0 <= j < attempts :: Parsable(urls[j], fetched[j])
      invariant prices == LastParse(urls[..attempts], fetched[..attempts])
      invariant !NonEmpty(prices)
      invariant forall j | 0 <= j < attempts :: !Succeeds(urls[j], fetched[j])
    {
      var url, data := urls[attempts], fetched[attempts];
      NoWinnerYetMeansSafe(urls, fetched, attempts);
      ghost var won := Succeeds(url, data);
      LastParseStep(urls, fetched, attempts);
      if Fetched(data) {
        prices := ParseResponse(data.value, url);
        assert won == NonEmpty(prices);
        if NonEmpty(prices) {
          attempts := attempts + 1;
          break;
        }
      }
      NoWinnerYet(urls, fetched, attempts);
      attempts := attempts + 1;
    }
  }

  /** With no winner among the first `k` candidates, the next one parses
      without the uncaught `TypeError`. */
  lemma NoWinnerYetMeansSafe(urls: seq<string>, fetched: seq<Option<Value>>, k: nat)
    requires |fetched| == |urls| && k < |urls| && NoCrashBeforeWin(urls, fetched)
    requires forall j | 0 <= j < k :: !Succeeds(urls[j], fetched[j])
    ensures Parsable(urls[k], fetched[k])
  {
  }

  /** One more attempt extends `LastParse` by that candidate. */
  lemma LastParseStep(urls: seq<string>, fetched: seq<Option<Value>>, k: nat)
    requires |fetched| == |urls| && k < |urls|
    requires forall i | 0 <= i <= k :: Parsable(urls[i], fetched[i])
    ensures LastParse(urls[..k + 1], fetched[..k + 1]) ==
      if Fetched(fetched[k]) then ParseResponse(fetched[k].value, urls[k])
      else LastParse(urls[..k], fetched[..k])
  {
    assert urls[..k + 1][..k] == urls[..k];
    assert fetched[..k + 1][..k] == fetched[..k];
  }

  /** A failed attempt extends the run of failed candidates. */
  lemma NoWinnerYet(urls: seq<string>, fetched: seq<Option<Value>>, k: nat)
    requires |fetched| == |urls| && k < |urls|
    requires forall j | 0 <= j < k :: !Succeeds(urls[j], fetched[j])
    requires !Succeeds(urls[k], fetched[k])
    ensures forall j | 0 <= j < k + 1 :: !Succeeds(urls[j], fetched[j])
  {
  }

  /** The default URL has neither a `k` nor a `b`. */
  lemma DefaultApiLacksKAndB()
    ensures 'k' !in DefaultApi && 'b' !in DefaultApi
  {
  }

  /** The default URL names none of the four sources. */
  lemma DefaultApiNamesNoSource()
    ensures !Contains(DefaultApi, "coindesk") && !Contains(DefaultApi, "coingecko")
    ensures !Contains(DefaultApi, "blockchain") && !Contains(DefaultApi, "coinbase")
  {
    DefaultApiLacksKAndB();
    MissingCharNotContained(DefaultApi, "coindesk", 'k');
    MissingCharNotContained(DefaultApi, "coingecko", 'k');
    MissingCharNotContained(DefaultApi, "blockchain", 'k');
    MissingCharNotContained(DefaultApi, "coinbase", 'b');
  }

  /** So the default URL's response always parses to `None`, and the loop
      falls through to the backups whatever the default source returns. */
  lemma DefaultApiHasNoRule(data: Value)
    ensures SchemaOf(DefaultApi) == Unsupported
    ensures !Crashes(data, DefaultApi) && ParseResponse(data, DefaultApi) == None
  {
    DefaultApiNamesNoSource();
    NoRuleNoPrices(data, DefaultApi);
  }

  /** When the user keeps the default URL, its attempt never ends the loop:
      the prices come from a backup or not at all. */
  lemma DefaultApiNeverWins(d: Option<Value>)
    ensures !Succeeds(DefaultApi, d)
  {
    if d.Some? {
      DefaultApiHasNoRule(d.value);
    }
  }
}
