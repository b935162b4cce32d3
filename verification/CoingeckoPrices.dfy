/** Matching the answers of price requests with the assets they were asked for. */
module CoingeckoPrices {
  import opened Chunks
  import opened Coingecko
  import opened Multisets
  import opened Wrappers

  /** One key of an answer, in the answer's order; `usd` may be missing. */
  datatype Answer = Answer(key: string, usd: Option<real>)

  datatype Outcome = Priced(address: string, price: real) | Missed(address: string)

  datatype PriceRow = PriceRow(address: string, price: real, chainId: int)

  datatype AssetOnChain = AssetOnChain(address: string, chain: int)

  // ---------------------------------------------------------------------------------------
  // Rekeying from ids to addresses
  // ---------------------------------------------------------------------------------------

  function ExtraAddress(extras: seq<Extra>, id: string): Option<string> {
    if extras == [] then None
    else if extras[0].id == id then Some(extras[0].address)
    else ExtraAddress(extras[1..], id)
  }

  /** The address of a requested id; any other key, and one with an empty address, stays. */
  function TargetOf(extras: seq<Extra>, key: string): string {
    match ExtraAddress(extras, key)
    case Some(address) => if address != "" then address else key
    case None => key
  }

  function Rekeyed(data: seq<Answer>, extras: seq<Extra>): map<string, Option<real>> {
    if data == [] then map[]
    else Rekeyed(data[..|data| - 1], extras)[TargetOf(extras, data[|data| - 1].key) := data[|data| - 1].usd]
  }

  method PreparePricesCoingeckoId(data: seq<Answer>, extras: seq<Extra>) returns (newData: map<string, Option<real>>)
    ensures newData == Rekeyed(data, extras)
  {
    newData := map[];
    for k := 0 to |data|
      invariant newData == Rekeyed(data[..k], extras)
    {
      assert data[..k + 1][..k] == data[..k];
      var address := ExtraAddress(extras, data[k].key);
      if address.Some? && address.value != "" {
        newData := newData[address.value := data[k].usd];
      } else {
        newData := newData[data[k].key := data[k].usd];
      }
    }
    assert data[..|data|] == data;
  }

  function Usd(value: map<string, Option<real>>, address: string): Option<real> {
    if address in value then value[address] else None
  }

  /** The answer for a key; the later one if a key were repeated. */
  function FindUsd(data: seq<Answer>, key: string): Option<real> {
    if data == [] then None
    else if data[|data| - 1].key == key then data[|data| - 1].usd
    else FindUsd(data[..|data| - 1], key)
  }

  // ---------------------------------------------------------------------------------------
  // Outcomes
  // ---------------------------------------------------------------------------------------

  function OutcomeOf(address: string, price: Option<real>): Outcome {
    match price
    case Some(p) => Priced(address, p)
    case None => Missed(address)
  }

  function OutcomesAt(addresses: seq<string>, value: map<string, Option<real>>): (r: seq<Outcome>)
    ensures |r| == |addresses| && forall i :: 0 <= i < |r| ==> r[i] == OutcomeOf(addresses[i], Usd(value, addresses[i]))
  {
    seq(|addresses|, i requires 0 <= i < |addresses| => OutcomeOf(addresses[i], Usd(value, addresses[i])))
  }

  function AddressesOf(extras: seq<Extra>): (r: seq<string>)
    ensures |r| == |extras| && forall i :: 0 <= i < |r| ==> r[i] == extras[i].address
  {
    seq(|extras|, i requires 0 <= i < |extras| => extras[i].address)
  }

  /** What is read from the answer to one request; a rejected request gives nothing. */
  function OutcomesOf(request: Request, answer: Option<seq<Answer>>): seq<Outcome> {
    match answer
    case None => []
    case Some(data) =>
      match request
      case ByIds(_, extras) => OutcomesAt(AddressesOf(extras), Rekeyed(data, extras))
      case ByContracts(_, contractAddresses) =>
        if contractAddresses == "" then [] else OutcomesAt(Split(contractAddresses), Rekeyed(data, []))
  }

  function OutcomesOfAll(requests: seq<Request>, answers: seq<Option<seq<Answer>>>): seq<Outcome>
    requires |requests| == |answers|
  {
    if requests == [] then []
    else
      OutcomesOfAll(requests[..|requests| - 1], answers[..|answers| - 1]) +
      OutcomesOf(requests[|requests| - 1], answers[|answers| - 1])
  }

  /** A priced address brings the rows of the assets that share its price first. */
  function RowsOf(duplicates: map<string, seq<AssetOnChain>>, chain: int, outcomes: seq<Outcome>): seq<PriceRow> {
    if outcomes == [] then []
    else
      RowsOf(duplicates, chain, outcomes[..|outcomes| - 1]) +
      match outcomes[|outcomes| - 1]
      case Priced(address, price) => DuplicateRows(duplicates, address, price) + [PriceRow(address, price, chain)]
      case Missed(_) => []
  }

  function DuplicateRows(duplicates: map<string, seq<AssetOnChain>>, address: string, price: real): (r: seq<PriceRow>)
    ensures address !in duplicates ==> r == []
    ensures address in duplicates ==>
              && |r| == |duplicates[address]|
              && forall i :: 0 <= i < |r| ==>
                  r[i] == PriceRow(duplicates[address][i].address, price, duplicates[address][i].chain)
  {
    if address !in duplicates then []
    else
      seq(|duplicates[address]|, i requires 0 <= i < |duplicates[address]| =>
        PriceRow(duplicates[address][i].address, price, duplicates[address][i].chain))
  }

  function MissedOf(outcomes: seq<Outcome>): seq<string> {
    if outcomes == [] then []
    else
      MissedOf(outcomes[..|outcomes| - 1]) +
      match outcomes[|outcomes| - 1]
      case Priced(_, _) => []
      case Missed(address) => [address]
  }

  lemma {:induction false} RowsAppend(duplicates: map<string, seq<AssetOnChain>>, chain: int, a: seq<Outcome>,
                                      b: seq<Outcome>)
    ensures RowsOf(duplicates, chain, a + b) == RowsOf(duplicates, chain, a) + RowsOf(duplicates, chain, b)
    ensures MissedOf(a + b) == MissedOf(a) + MissedOf(b)
  {
    hide DuplicateRows;
    if b == [] {
      assert a + b == a;
    } else {
      assert (a + b)[..|a + b| - 1] == a + b[..|b| - 1];
      RowsAppend(duplicates, chain, a, b[..|b| - 1]);
    }
  }

  datatype Collected = Collected(prices: seq<PriceRow>, missed: map<int, seq<string>>)

  function Note(missed: map<int, seq<string>>, chain: int, more: seq<string>): map<int, seq<string>> {
    if more == [] then missed
    else missed[chain := (if chain in missed then missed[chain] else []) + more]
  }

  /** What has been collected, and after it the outcomes of a chain. */
  function Extended(duplicates: map<string, seq<AssetOnChain>>, chain: int, c: Collected,
                    outcomes: seq<Outcome>): Collected {
    Collected(c.prices + RowsOf(duplicates, chain, outcomes), Note(c.missed, chain, MissedOf(outcomes)))
  }

  lemma ExtendedTwice(duplicates: map<string, seq<AssetOnChain>>, chain: int, c: Collected, a: seq<Outcome>,
                      b: seq<Outcome>)
    ensures Extended(duplicates, chain, Extended(duplicates, chain, c, a), b) == Extended(duplicates, chain, c, a + b)
  {
    RowsAppend(duplicates, chain, a, b);
    hide RowsOf, MissedOf;
    if MissedOf(a) == [] {
      assert MissedOf(a) + MissedOf(b) == MissedOf(b);
    } else if MissedOf(b) == [] {
      assert MissedOf(a) + MissedOf(b) == MissedOf(a);
    } else {
      var old_ := if chain in c.missed then c.missed[chain] else [];
      assert old_ + MissedOf(a) + MissedOf(b) == old_ + (MissedOf(a) + MissedOf(b));
    }
  }

  lemma ExtendedNone(duplicates: map<string, seq<AssetOnChain>>, chain: int, c: Collected)
    ensures Extended(duplicates, chain, c, []) == c
  {
    assert c.prices + [] == c.prices;
  }

  lemma ExtendedOne(duplicates: map<string, seq<AssetOnChain>>, chain: int, c: Collected, o: Outcome)
    ensures Extended(duplicates, chain, c, [o]) ==
            match o
            case Priced(address, price) =>
              var shared := DuplicateRows(duplicates, address, price);
              Collected(c.prices + shared + [PriceRow(address, price, chain)], c.missed)
            case Missed(address) => Collected(c.prices, Note(c.missed, chain, [address]))
  {
    OneOutcome(duplicates, chain, o);
    hide RowsOf, MissedOf, DuplicateRows;
    match o
    case Priced(address, price) =>
      var shared, own := DuplicateRows(duplicates, address, price), [PriceRow(address, price, chain)];
      assert c.prices + (shared + own) == c.prices + shared + own;
    case Missed(address) =>
      assert c.prices + [] == c.prices;
  }

  lemma OneOutcome(duplicates: map<string, seq<AssetOnChain>>, chain: int, o: Outcome)
    ensures o.Priced? ==>
              RowsOf(duplicates, chain, [o])
                == DuplicateRows(duplicates, o.address, o.price) + [PriceRow(o.address, o.price, chain)]
    ensures o.Priced? ==> MissedOf([o]) == []
    ensures o.Missed? ==> RowsOf(duplicates, chain, [o]) == [] && MissedOf([o]) == [o.address]
  {
    hide DuplicateRows;
    assert [o][..0] == [];
    assert RowsOf(duplicates, chain, []) == [];
    assert MissedOf([]) == [];
  }

  /** All rows of all chains in request order; per chain, its missed addresses. */
  function CollectAll(duplicates: map<string, seq<AssetOnChain>>, chains: seq<ChainRequests>,
                      answers: seq<seq<Option<seq<Answer>>>>): Collected
    requires |chains| == |answers| && forall i :: 0 <= i < |chains| ==> |chains[i].requests| == |answers[i]|
  {
    if chains == [] then Collected([], map[])
    else
      var n := |chains| - 1;
      Extended(duplicates, chains[n].chain, CollectAll(duplicates, chains[..n], answers[..n]),
               OutcomesOfAll(chains[n].requests, answers[n]))
  }

  method HandleCoingeckoResponse(duplicates: map<string, seq<AssetOnChain>>, chains: seq<ChainRequests>,
                                 answers: seq<seq<Option<seq<Answer>>>>) returns (r: Collected)
    requires |chains| == |answers| && forall i :: 0 <= i < |chains| ==> |chains[i].requests| == |answers[i]|
    ensures r == CollectAll(duplicates, chains, answers)
  {
    hide OutcomesOfAll, Extended;
    r := Collected([], map[]);
    for index := 0 to |chains|
      invariant r == CollectAll(duplicates, chains[..index], answers[..index])
    {
      assert chains[..index + 1][..index] == chains[..index] && answers[..index + 1][..index] == answers[..index];
      r := HandleChain(duplicates, chains[index], answers[index], r);
    }
    assert chains[..|chains|] == chains && answers[..|answers|] == answers;
  }

  lemma OutcomesPush(requests: seq<Request>, answers: seq<Option<seq<Answer>>>, i: nat)
    requires |requests| == |answers| && i < |requests|
    ensures OutcomesOfAll(requests[..i + 1], answers[..i + 1])
            == OutcomesOfAll(requests[..i], answers[..i]) + OutcomesOf(requests[i], answers[i])
  {
    assert requests[..i + 1][..i] == requests[..i] && answers[..i + 1][..i] == answers[..i];
  }

  method HandleChain(duplicates: map<string, seq<AssetOnChain>>, chain: ChainRequests,
                     answers: seq<Option<seq<Answer>>>,
                     before: Collected) returns (r: Collected)
    requires |chain.requests| == |answers|
    ensures r == Extended(duplicates, chain.chain, before, OutcomesOfAll(chain.requests, answers))
  {
    hide OutcomesOf, Extended;
    r := before;
    ExtendedNone(duplicates, chain.chain, before);
    for i := 0 to |answers|
      invariant r == Extended(duplicates, chain.chain, before, OutcomesOfAll(chain.requests[..i], answers[..i]))
    {
      OutcomesPush(chain.requests, answers, i);
      hide OutcomesOfAll;
      ExtendedTwice(duplicates, chain.chain, before, OutcomesOfAll(chain.requests[..i], answers[..i]),
                    OutcomesOf(chain.requests[i], answers[i]));
      r := HandleRequest(duplicates, chain.chain, chain.requests[i], answers[i], r);
    }
    assert chain.requests[..|answers|] == chain.requests && answers[..|answers|] == answers;
  }

  method HandleRequest(duplicates: map<string, seq<AssetOnChain>>, chain: int, request: Request,
                       answer: Option<seq<Answer>>,
                       before: Collected) returns (r: Collected)
    ensures r == Extended(duplicates, chain, before, OutcomesOf(request, answer))
  {
    ExtendedNone(duplicates, chain, before);
    hide Extended;
    if answer.None? {
      return before;
    }
    match request
    case ByContracts(_, contractAddresses) =>
      if contractAddresses == "" {
        return before;
      }
      r := ReadPrices(duplicates, chain, Split(contractAddresses), Rekeyed(answer.value, []), before);
    case ByIds(_, extras) =>
      var value := PreparePricesCoingeckoId(answer.value, extras);
      r := ReadPrices(duplicates, chain, AddressesOf(extras), value, before);
  }

  /** One pass over the asked addresses. */
  method ReadPrices(duplicates: map<string, seq<AssetOnChain>>, chain: int, addresses: seq<string>,
                    value: map<string, Option<real>>,
                    before: Collected) returns (r: Collected)
    ensures r == Extended(duplicates, chain, before, OutcomesAt(addresses, value))
  {
    hide DuplicateRows, Usd, Extended;
    ghost var outcomes := OutcomesAt(addresses, value);
    r := before;
    ExtendedNone(duplicates, chain, before);
    for k := 0 to |addresses|
      invariant r == Extended(duplicates, chain, before, outcomes[..k])
    {
      assert outcomes[..k + 1] == outcomes[..k] + [outcomes[k]];
      ExtendedTwice(duplicates, chain, before, outcomes[..k], [outcomes[k]]);
      ExtendedOne(duplicates, chain, r, outcomes[k]);
      var price := Usd(value, addresses[k]);
      if price.None? {
        r := Collected(r.prices,
                       r.missed[chain := (if chain in r.missed then r.missed[chain] else []) + [addresses[k]]]);
      } else {
        var rows := DuplicateRows(duplicates, addresses[k], price.value);
        r := Collected(r.prices + rows + [PriceRow(addresses[k], price.value, chain)], r.missed);
      }
    }
    assert outcomes[..|addresses|] == outcomes;
  }
}
