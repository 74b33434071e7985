/** `select_currencies` and the filter that follows it in `main`: the user
    names currencies by code, comma-separated, or presses Enter for all of
    them; a reply naming any code that is not on offer is refused whole and
    the user is asked again. */
module Selection {
  import opened Wrappers
  import opened Text
  import opened Parse

  /** `get_user_input(prompt).upper()`: the reply stripped, then upper-cased
      (the default `""` of `get_user_input` is the stripped reply when that
      is empty). */
  function Normalise(reply: string): (r: string)
    ensures |r| <= |reply|
    ensures r == [] <==> forall i | 0 <= i < |reply| :: IsSpace(reply[i])
  {
    StripShape(reply);
    Upper(Strip(reply))
  }

  /** `[c.strip() for c in selection.split(",")]`. */
  function Pieces(selection: string): (r: seq<string>)
    ensures |r| == |Split(selection, ',')| >= 1
  {
    var parts := Split(selection, ',');
    seq(|parts|, i requires 0 <= i < |parts| => Strip(parts[i]))
  }

  /** `[c for c in selected if c not in available]`. */
  function Invalid(selected: seq<string>, available: seq<string>): (r: seq<string>)
    ensures |r| <= |selected|
    ensures forall i | 0 <= i < |r| :: r[i] !in available
  {
    if selected == [] then []
    else if selected[0] in available then Invalid(selected[1..], available)
    else [selected[0]] + Invalid(selected[1..], available)
  }

  /** The refused codes are exactly the pieces not on offer, in order. */
  lemma {:induction false} InvalidMembers(selected: seq<string>, available: seq<string>)
    ensures forall c :: c in Invalid(selected, available) <==> c in selected && c !in available
    ensures |Invalid(selected, available)| <= |selected|
  {
    if selected != [] {
      InvalidMembers(selected[1..], available);
      assert selected == [selected[0]] + selected[1..];
    }
  }

  /** What one reply leads to: the codes to report, or the codes refused. */
  datatype Outcome = Accepted(codes: seq<string>) | Rejected(invalid: seq<string>)

  /** One pass of the `while True` loop of `select_currencies`. */
  function SelectOnce(reply: string, available: seq<string>): (r: Outcome)
    ensures r.Rejected? ==> r.invalid != [] && forall i | 0 <= i < |r.invalid| :: r.invalid[i] !in available
    ensures r.Rejected? ==> exists i | 0 <= i < |reply| :: !IsSpace(reply[i])
  {
    var selection := Normalise(reply);
    if selection == [] then Accepted(available)
    else
      var selected := Pieces(selection);
      var invalid := Invalid(selected, available);
      if invalid == [] then Accepted(selected) else Rejected(invalid)
  }

  /** A blank reply, spaces only, selects every available currency, in the
      order offered. */
  lemma BlankSelectsAll(reply: string, available: seq<string>)
    requires forall i | 0 <= i < |reply| :: IsSpace(reply[i])
    ensures SelectOnce(reply, available) == Accepted(available)
  {
    StripShape(reply);
  }

  /** Each piece is one comma-free field with its white space stripped. */
  lemma PiecesShape(selection: string, i: nat)
    requires i < |Pieces(selection)|
    ensures ',' !in Pieces(selection)[i]
    ensures Strip(Pieces(selection)[i]) == Pieces(selection)[i]
  {
    var part := Split(selection, ',')[i];
    assert Pieces(selection)[i] == Strip(part);
    StripIdempotent(part);
    if ',' in Strip(part) {
      StripKeepsOnly(part, ',');
    }
  }

  /** A reply with text in it is accepted exactly when every stripped,
      upper-cased piece is on offer, and then those pieces are the
      selection; otherwise the refused codes are exactly the pieces not on
      offer, so nothing is accepted in part. */
  lemma SelectionIsAllOrNothing(reply: string, available: seq<string>)
    requires exists i | 0 <= i < |reply| :: !IsSpace(reply[i])
    ensures SelectOnce(reply, available).Accepted? <==>
      forall c | c in Pieces(Normalise(reply)) :: c in available
    ensures SelectOnce(reply, available).Accepted? ==>
      SelectOnce(reply, available).codes == Pieces(Normalise(reply))
    ensures SelectOnce(reply, available).Rejected? ==>
      SelectOnce(reply, available).invalid != [] &&
      forall c :: c in SelectOnce(reply, available).invalid <==>
        c in Pieces(Normalise(reply)) && c !in available
  {
    StripShape(reply);
    assert Normalise(reply) != [];
    InvalidMembers(Pieces(Normalise(reply)), available);
    if Invalid(Pieces(Normalise(reply)), available) != [] {
      var c := Invalid(Pieces(Normalise(reply)), available)[0];
      assert c in Invalid(Pieces(Normalise(reply)), available);
    }
  }

  /** Whatever the reply, every accepted code is on offer. */
  lemma AcceptedCodesAreAvailable(reply: string, available: seq<string>)
    ensures SelectOnce(reply, available).Accepted? ==>
      forall c | c in SelectOnce(reply, available).codes :: c in available
  {
    if Normalise(reply) != [] {
      InvalidMembers(Pieces(Normalise(reply)), available);
      if Invalid(Pieces(Normalise(reply)), available) != [] {
        assert Invalid(Pieces(Normalise(reply)), available)[0] in Invalid(Pieces(Normalise(reply)), available);
      }
    }
  }

  /** `select_currencies(available)`, fed the replies the user gives in turn;
      `prompts` is how many were read. Python would wait for input forever
      (or raise `EOFError`); running out of replies gives `None` here. */
  method SelectCurrencies(available: seq<string>, replies: seq<string>)
      returns (selected: Option<seq<string>>, prompts: nat)
    ensures prompts <= |replies|
    ensures forall j | 0 <= j < prompts - 1 :: SelectOnce(replies[j], available).Rejected?
    ensures selected.Some? ==>
      1 <= prompts && SelectOnce(replies[prompts - 1], available) == Accepted(selected.value)
    ensures selected.None? ==>
      prompts == |replies| && forall j | 0 <= j < |replies| :: SelectOnce(replies[j], available).Rejected?
  {
    prompts := 0;
    while prompts < |replies|
      invariant prompts <= |replies|
      invariant forall j | 0 <= j < prompts :: SelectOnce(replies[j], available).Rejected?
    {
      var outcome := SelectOnce(replies[prompts], available);
      prompts := prompts + 1;
      if outcome.Accepted? {
        return Some(outcome.codes), prompts;
      }
    }
    return None, prompts;
  }

  /** `{k: v for k, v in prices.items() if k in selected}`. */
  function FilterPrices(prices: PriceMap, selected: seq<string>): (r: PriceMap)
    ensures r.Keys <= prices.Keys
    ensures forall k | k in r :: k in selected && r[k] == prices[k]
  {
    map k | k in prices && k in selected :: prices[k]
  }

  /** The filter keeps exactly the selected keys of `prices`, each with its
      value unchanged, and filtering twice changes nothing more. */
  lemma FilterKeepsSelected(prices: PriceMap, selected: seq<string>)
    ensures FilterPrices(prices, selected).Keys == prices.Keys * set c | c in selected
    ensures forall k | k in FilterPrices(prices, selected) :: FilterPrices(prices, selected)[k] == prices[k]
    ensures FilterPrices(FilterPrices(prices, selected), selected) == FilterPrices(prices, selected)
  {
  }

  /** `available` is `list(prices.keys())`: it lists exactly the keys. */
  ghost predicate ListsKeys(available: seq<string>, prices: PriceMap) {
    forall k :: k in available <==> k in prices
  }

  /** Selecting from the prices' own keys and filtering: a blank reply keeps
      every price, an accepted reply keeps exactly the named currencies, and
      a non-empty price map never filters down to nothing. */
  lemma SelectThenFilter(prices: PriceMap, available: seq<string>, reply: string)
    requires ListsKeys(available, prices)
    requires SelectOnce(reply, available).Accepted?
    ensures Normalise(reply) == [] ==> FilterPrices(prices, SelectOnce(reply, available).codes) == prices
    ensures FilterPrices(prices, SelectOnce(reply, available).codes).Keys ==
      set c | c in SelectOnce(reply, available).codes
    ensures prices != map[] ==> FilterPrices(prices, SelectOnce(reply, available).codes) != map[]
  {
    var codes := SelectOnce(reply, available).codes;
    AcceptedCodesAreAvailable(reply, available);
    FilterKeepsSelected(prices, codes);
    assert forall c | c in codes :: c in prices;
    assert FilterPrices(prices, codes).Keys == set c | c in codes;
    if Normalise(reply) != [] {
      var c := Pieces(Normalise(reply))[0];
      assert c in codes;
      assert c in FilterPrices(prices, codes);
    } else if prices != map[] {
      var k :| k in prices;
      assert k in codes;
    }
  }
}
