/** Which assets the price rows and the missed entries of a whole response speak of. */
module CoingeckoConservation {
  import opened Chunks
  import opened Coingecko
  import opened CoingeckoPrices
  import opened Multisets
  import opened Wrappers

  // ---------------------------------------------------------------------------------------
  // One outcome for every asset, whatever the answers
  // ---------------------------------------------------------------------------------------

  /** Addresses are plain, and distinct in the part, as are its ids. */
  predicate Tidy(part: seq<Asset>) {
    && (forall i :: 0 <= i < |part| ==> part[i].address != "" && NoComma(part[i].address))
    && (forall i, j :: 0 <= i < j < |part| ==> part[i].address != part[j].address)
    && DistinctIds(part)
  }

  predicate DistinctIds(part: seq<Asset>) {
    forall i, j :: 0 <= i < j < |part| ==> part[i].Key() != part[j].Key()
  }

  lemma {:induction false} PutNewExtra(extras: seq<Extra>, e: Extra)
    requires forall i :: 0 <= i < |extras| ==> extras[i].id != e.id
    ensures PutExtra(extras, e) == extras + [e]
  {
    if extras != [] {
      PutNewExtra(extras[1..], e);
      assert extras + [e] == [extras[0]] + (extras[1..] + [e]);
    }
  }

  function PlainExtras(part: seq<Asset>): (r: seq<Extra>)
    ensures |r| == |part| && forall i :: 0 <= i < |r| ==> r[i] == Extra(part[i].Key(), part[i].address)
  {
    seq(|part|, i requires 0 <= i < |part| => Extra(part[i].Key(), part[i].address))
  }

  lemma {:induction false} TidyExtras(part: seq<Asset>)
    requires DistinctIds(part)
    ensures ExtrasOf(part) == PlainExtras(part)
  {
    hide Asset.Key;
    if part != [] {
      var init, last := part[..|part| - 1], part[|part| - 1];
      TidyExtras(init);
      PutNewExtra(ExtrasOf(init), Extra(last.Key(), last.address));
      assert PlainExtras(part) == PlainExtras(init) + [Extra(last.Key(), last.address)];
    }
  }

  function OutcomeAddresses(outcomes: seq<Outcome>): seq<string> {
    seq(|outcomes|, i requires 0 <= i < |outcomes| => outcomes[i].address)
  }

  function AssetAddresses(assets: seq<Asset>): seq<string> {
    seq(|assets|, i requires 0 <= i < |assets| => assets[i].address)
  }

  lemma NoAddresses()
    ensures OutcomeAddresses([]) == AssetAddresses([])
  {
  }

  lemma AppendAddresses(outcomes: seq<Outcome>, more: seq<Outcome>, assets: seq<Asset>, others: seq<Asset>)
    requires OutcomeAddresses(outcomes) == AssetAddresses(assets) && OutcomeAddresses(more) == AssetAddresses(others)
    ensures OutcomeAddresses(outcomes + more) == AssetAddresses(assets + others)
  {
    assert OutcomeAddresses(outcomes + more) == OutcomeAddresses(outcomes) + OutcomeAddresses(more);
    assert AssetAddresses(assets + others) == AssetAddresses(assets) + AssetAddresses(others);
  }

  lemma JoinIsNotEmpty(parts: seq<string>)
    requires parts != [] && parts[0] != ""
    ensures Join(parts) != ""
  {
  }

  lemma ContractAddresses(part: seq<Asset>)
    requires Tidy(part) && part != [] && forall a :: a in part ==> !a.HasId()
    ensures Join(KeysOf(part)) != "" && Split(Join(KeysOf(part))) == AssetAddresses(part)
  {
    var keys := KeysOf(part);
    forall i | 0 <= i < |part|
      ensures keys[i] == part[i].address
    {
      assert part[i] in part;
    }
    forall p | p in keys
      ensures NoComma(p)
    {
      var i :| 0 <= i < |keys| && keys[i] == p;
      assert NoComma(part[i].address);
    }
    JoinIsNotEmpty(keys);
    SplitJoin(keys);
    assert keys == AssetAddresses(part);
  }

  lemma OutcomesAtAddresses(addresses: seq<string>, value: map<string, Option<real>>)
    ensures OutcomeAddresses(OutcomesAt(addresses, value)) == addresses
  {
    hide Usd;
  }

  lemma IdAddresses(part: seq<Asset>)
    requires DistinctIds(part)
    ensures AddressesOf(ExtrasOf(part)) == AssetAddresses(part)
  {
    TidyExtras(part);
    hide ExtrasOf, DistinctIds, Asset.Key;
  }

  /** The answer to a request gives every asset of its part one outcome, in order, whatever
      the answer holds. */
  lemma RequestAddresses(part: seq<Asset>, platformId: string, data: seq<Answer>)
    requires IsPart(part) && Tidy(part)
    ensures OutcomeAddresses(OutcomesOf(RequestOf(part, platformId), Some(data))) == AssetAddresses(part)
  {
    hide NoComma, DistinctIds, Rekeyed, Join, Split, KeysOf, ExtrasOf, OutcomeAddresses, AssetAddresses;
    assert part[0] in part;
    if part[0].HasId() {
      IdAddresses(part);
      OutcomesAtAddresses(AddressesOf(ExtrasOf(part)), Rekeyed(data, ExtrasOf(part)));
    } else {
      ContractAddresses(part);
      OutcomesAtAddresses(Split(Join(KeysOf(part))), Rekeyed(data, []));
    }
  }

  /** The assets of the fulfilled requests of a chain. */
  function FulfilledAssets(parts: seq<seq<Asset>>, answers: seq<Option<seq<Answer>>>): seq<Asset>
    requires |parts| == |answers|
  {
    if parts == [] then []
    else
      FulfilledAssets(parts[..|parts| - 1], answers[..|answers| - 1]) +
      if answers[|answers| - 1].Some? then parts[|parts| - 1] else []
  }

  predicate AllTidy(parts: seq<seq<Asset>>) {
    forall i :: 0 <= i < |parts| ==> IsPart(parts[i]) && Tidy(parts[i])
  }

  lemma {:induction false} ChainAddresses(parts: seq<seq<Asset>>, platformId: string, answers: seq<Option<seq<Answer>>>)
    requires |parts| == |answers| && AllTidy(parts)
    ensures OutcomeAddresses(OutcomesOfAll(RequestsOf(parts, platformId), answers))
            == AssetAddresses(FulfilledAssets(parts, answers))
  {
    hide Tidy, IsPart, OutcomesOf, RequestOf, OutcomeAddresses, AssetAddresses;
    if parts == [] {
      NoAddresses();
    } else {
      var n := |parts| - 1;
      ChainAddresses(parts[..n], platformId, answers[..n]);
      var requests := RequestsOf(parts, platformId);
      assert requests[..n] == RequestsOf(parts[..n], platformId);
      var before, fulfilled := OutcomesOfAll(requests[..n], answers[..n]), FulfilledAssets(parts[..n], answers[..n]);
      if answers[n].Some? {
        RequestAddresses(parts[n], platformId, answers[n].value);
        AppendAddresses(before, OutcomesOf(requests[n], answers[n]), fulfilled, parts[n]);
      } else {
        NothingFulfilled(requests[n]);
        assert before + [] == before && fulfilled + [] == fulfilled;
      }
    }
  }

  lemma NothingFulfilled(request: Request)
    ensures OutcomesOf(request, None) == []
  {
  }

  lemma {:induction false} AllFulfilled(parts: seq<seq<Asset>>, answers: seq<Option<seq<Answer>>>)
    requires |parts| == |answers| && forall i :: 0 <= i < |answers| ==> answers[i].Some?
    ensures FulfilledAssets(parts, answers) == Flatten(parts)
  {
    if parts != [] {
      var n := |parts| - 1;
      AllFulfilled(parts[..n], answers[..n]);
      assert parts == parts[..n] + [parts[n]];
      FlattenAppend(parts[..n], [parts[n]]);
      FlattenOne(parts[n]);
    }
  }

  lemma {:induction false} AddressesPermute(a: seq<Asset>, b: seq<Asset>)
    requires multiset(a) == multiset(b)
    ensures multiset(AssetAddresses(a)) == multiset(AssetAddresses(b))
  {
    if a == [] {
      assert |multiset(b)| == |b| == 0;
    } else {
      var i := MatchLast(a, b);
      AddressesPermute(a[..|a| - 1], b[..i] + b[i + 1..]);
      AddressesWithout(a, |a| - 1);
      assert a[..|a| - 1] + a[|a| - 1 + 1..] == a[..|a| - 1];
      AddressesWithout(b, i);
    }
  }

  lemma AddressesWithout(a: seq<Asset>, i: nat)
    requires i < |a|
    ensures multiset(AssetAddresses(a)) == multiset(AssetAddresses(a[..i] + a[i + 1..])) + multiset{a[i].address}
  {
    var all := AssetAddresses(a);
    MultisetWithout(all, i);
    assert AssetAddresses(a[..i] + a[i + 1..]) == all[..i] + all[i + 1..];
  }

  // ---------------------------------------------------------------------------------------
  // Each its own price
  // ---------------------------------------------------------------------------------------

  /** The outcomes the assets of a part should have: each its own key's price. */
  function Expected(part: seq<Asset>, data: seq<Answer>): (r: seq<Outcome>)
    ensures |r| == |part| && forall i :: 0 <= i < |r| ==>
              r[i] == OutcomeOf(part[i].address, FindUsd(data, part[i].Key()))
  {
    seq(|part|, i requires 0 <= i < |part| => OutcomeOf(part[i].address, FindUsd(data, part[i].Key())))
  }

  /** No answer key that was not asked for is the address of an asset of the part. */
  predicate NoStrays(part: seq<Asset>, data: seq<Answer>) {
    forall i, j :: 0 <= i < |part| && 0 <= j < |data| && data[j].key == part[i].address ==>
                     exists k :: 0 <= k < |part| && part[k].Key() == data[j].key
  }

  lemma {:induction false} ExtraAddressMeans(extras: seq<Extra>, id: string) returns (i: nat)
    ensures ExtraAddress(extras, id).Some? ==> i < |extras| && extras[i] == Extra(id, ExtraAddress(extras, id).value)
    ensures ExtraAddress(extras, id).None? ==> forall j :: 0 <= j < |extras| ==> extras[j].id != id
  {
    i := 0;
    if extras != [] && extras[0].id != id {
      var j := ExtraAddressMeans(extras[1..], id);
      i := j + 1;
      if ExtraAddress(extras, id).None? {
        forall k | 0 <= k < |extras|
          ensures extras[k].id != id
        {
          if k > 0 {
            assert extras[1..][k - 1] == extras[k];
          }
        }
      }
    }
  }

  /** An answer key lands on an asset's address exactly when it is the asset's id. */
  lemma TargetIsOwn(part: seq<Asset>, key: string, i: nat)
    requires Tidy(part) && i < |part|
    requires key == part[i].address ==> exists k :: 0 <= k < |part| && part[k].Key() == key
    ensures TargetOf(PlainExtras(part), key) == part[i].address <==> key == part[i].Key()
  {
    hide Asset.Key, NoComma;
    var j := ExtraAddressMeans(PlainExtras(part), key);
    if ExtraAddress(PlainExtras(part), key).None? {
      forall k | 0 <= k < |part|
        ensures part[k].Key() != key
      {
        assert PlainExtras(part)[k].id == part[k].Key();
      }
    }
  }

  /** Rekeyed, the answer holds at `address` what it held at `key`, when only that key lands
      there. */
  lemma {:induction false} RekeyedLooksUp(data: seq<Answer>, extras: seq<Extra>, address: string, key: string)
    requires forall j :: 0 <= j < |data| ==> (TargetOf(extras, data[j].key) == address <==> data[j].key == key)
    ensures Usd(Rekeyed(data, extras), address) == FindUsd(data, key)
  {
    hide TargetOf;
    if data != [] {
      RekeyedLooksUp(data[..|data| - 1], extras, address, key);
    }
  }

  lemma IdsOutcomes(part: seq<Asset>, data: seq<Answer>)
    requires Tidy(part) && NoStrays(part, data)
    ensures OutcomesAt(AddressesOf(ExtrasOf(part)), Rekeyed(data, ExtrasOf(part))) == Expected(part, data)
  {
    TidyExtras(part);
    var extras := PlainExtras(part);
    forall i | 0 <= i < |part|
      ensures Usd(Rekeyed(data, extras), part[i].address) == FindUsd(data, part[i].Key())
    {
      forall j | 0 <= j < |data|
        ensures TargetOf(extras, data[j].key) == part[i].address <==> data[j].key == part[i].Key()
      {
        TargetIsOwn(part, data[j].key, i);
      }
      RekeyedLooksUp(data, extras, part[i].address, part[i].Key());
    }
    hide Rekeyed, Tidy, NoStrays, FindUsd, Usd, Asset.Key, ExtrasOf;
  }

  lemma ContractsOutcomes(part: seq<Asset>, data: seq<Answer>)
    requires Tidy(part) && part != [] && forall a :: a in part ==> !a.HasId()
    ensures OutcomesAt(AssetAddresses(part), Rekeyed(data, [])) == Expected(part, data)
  {
    forall i | 0 <= i < |part|
      ensures Usd(Rekeyed(data, []), part[i].address) == FindUsd(data, part[i].Key())
    {
      assert part[i] in part;
      RekeyedLooksUp(data, [], part[i].address, part[i].Key());
    }
    hide Rekeyed, Tidy, FindUsd, Usd, Asset.Key;
  }

  /** A fulfilled request gives every asset of its part its own key's price or a miss. */
  lemma FulfilledRequest(part: seq<Asset>, platformId: string, data: seq<Answer>)
    requires IsPart(part) && Tidy(part) && NoStrays(part, data)
    ensures OutcomesOf(RequestOf(part, platformId), Some(data)) == Expected(part, data)
  {
    assert part[0] in part;
    if part[0].HasId() {
      IdsOutcomes(part, data);
    } else {
      ContractAddresses(part);
      ContractsOutcomes(part, data);
    }
  }

  function ExpectedOfAll(parts: seq<seq<Asset>>, answers: seq<Option<seq<Answer>>>): seq<Outcome>
    requires |parts| == |answers|
  {
    if parts == [] then []
    else
      ExpectedOfAll(parts[..|parts| - 1], answers[..|answers| - 1]) +
      match answers[|answers| - 1]
      case Some(data) => Expected(parts[|parts| - 1], data)
      case None => []
  }

  ghost predicate WellAnswered(parts: seq<seq<Asset>>, answers: seq<Option<seq<Answer>>>)
    requires |parts| == |answers|
  {
    forall i :: 0 <= i < |parts| ==> Tidy(parts[i]) && (answers[i].Some? ==> NoStrays(parts[i], answers[i].value))
  }

  lemma {:induction false} OutcomesAreExpected(parts: seq<seq<Asset>>, platformId: string,
                                               answers: seq<Option<seq<Answer>>>)
    requires |parts| == |answers| && WellAnswered(parts, answers) && forall i :: 0 <= i < |parts| ==> IsPart(parts[i])
    ensures OutcomesOfAll(RequestsOf(parts, platformId), answers) == ExpectedOfAll(parts, answers)
  {
    hide Tidy, NoStrays, IsPart, OutcomesOf, RequestOf;
    if parts != [] {
      var n := |parts| - 1;
      OutcomesAreExpected(parts[..n], platformId, answers[..n]);
      assert RequestsOf(parts, platformId)[..n] == RequestsOf(parts[..n], platformId);
      if answers[n].Some? {
        FulfilledRequest(parts[n], platformId, answers[n].value);
      } else {
        NothingFulfilled(RequestOf(parts[n], platformId));
      }
    }
  }

  // ---------------------------------------------------------------------------------------
  // Counting rows and missed entries
  // ---------------------------------------------------------------------------------------

  /** The assets the rows are of, as often as they have one. */
  function RowKeys(rows: seq<PriceRow>): multiset<AssetOnChain> {
    if rows == [] then multiset{}
    else RowKeys(rows[..|rows| - 1]) + multiset{AssetOnChain(rows[|rows| - 1].address, rows[|rows| - 1].chainId)}
  }

  function OwnKeys(chain: int, addresses: seq<string>): multiset<AssetOnChain> {
    if addresses == [] then multiset{}
    else OwnKeys(chain, addresses[..|addresses| - 1]) + multiset{AssetOnChain(addresses[|addresses| - 1], chain)}
  }

  function SharedBy(duplicates: map<string, seq<AssetOnChain>>, address: string): multiset<AssetOnChain> {
    if address in duplicates then multiset(duplicates[address]) else multiset{}
  }

  /** The assets that get a row because another one is priced. */
  function SharedByAll(duplicates: map<string, seq<AssetOnChain>>, outcomes: seq<Outcome>): multiset<AssetOnChain> {
    if outcomes == [] then multiset{}
    else
      SharedByAll(duplicates, outcomes[..|outcomes| - 1]) +
      if outcomes[|outcomes| - 1].Priced? then SharedBy(duplicates, outcomes[|outcomes| - 1].address) else multiset{}
  }

  lemma {:induction false} RowKeysAppend(a: seq<PriceRow>, b: seq<PriceRow>)
    ensures RowKeys(a + b) == RowKeys(a) + RowKeys(b)
  {
    if b == [] {
      assert a + b == a;
    } else {
      assert (a + b)[..|a + b| - 1] == a + b[..|b| - 1];
      RowKeysAppend(a, b[..|b| - 1]);
    }
  }

  lemma {:induction false} RowKeysAre(rows: seq<PriceRow>, assets: seq<AssetOnChain>)
    requires |rows| == |assets|
    requires forall i :: 0 <= i < |rows| ==> AssetOnChain(rows[i].address, rows[i].chainId) == assets[i]
    ensures RowKeys(rows) == multiset(assets)
  {
    if rows != [] {
      RowKeysAre(rows[..|rows| - 1], assets[..|assets| - 1]);
      assert assets == assets[..|assets| - 1] + [assets[|assets| - 1]];
    }
  }

  lemma SharedRows(duplicates: map<string, seq<AssetOnChain>>, address: string, price: real)
    ensures RowKeys(DuplicateRows(duplicates, address, price)) == SharedBy(duplicates, address)
  {
    if address in duplicates {
      RowKeysAre(DuplicateRows(duplicates, address, price), duplicates[address]);
    }
  }

  /** A priced address adds its own row and one row for every asset registered as sharing its
      price; nothing else adds a row. */
  lemma OneRowMore(duplicates: map<string, seq<AssetOnChain>>, chain: int, outcomes: seq<Outcome>)
    requires outcomes != []
    ensures var init, last := outcomes[..|outcomes| - 1], outcomes[|outcomes| - 1];
            RowKeys(RowsOf(duplicates, chain, outcomes)) == RowKeys(RowsOf(duplicates, chain, init)) +
            if last.Priced? then SharedBy(duplicates, last.address) + multiset{AssetOnChain(last.address, chain)}
              else multiset{}
  {
    hide DuplicateRows, SharedBy, RowKeys;
    var init, last := outcomes[..|outcomes| - 1], outcomes[|outcomes| - 1];
    var before := RowsOf(duplicates, chain, init);
    match last
    case Priced(address, price) =>
      var others, own := DuplicateRows(duplicates, address, price), [PriceRow(address, price, chain)];
      assert RowsOf(duplicates, chain, outcomes) == before + (others + own);
      hide RowsOf;
      SharedRows(duplicates, address, price);
      RowKeysAppend(before, others + own);
      RowKeysAppend(others, own);
      KeyOfRow(PriceRow(address, price, chain));
    case Missed(_) =>
      assert RowsOf(duplicates, chain, outcomes) == before + [] == before;
  }

  lemma KeyOfRow(row: PriceRow)
    ensures RowKeys([row]) == multiset{AssetOnChain(row.address, row.chainId)}
  {
    assert [row][..0] == [];
  }

  lemma {:induction false} RowsAndMisses(duplicates: map<string, seq<AssetOnChain>>, chain: int, outcomes: seq<Outcome>)
    ensures RowKeys(RowsOf(duplicates, chain, outcomes)) + OwnKeys(chain, MissedOf(outcomes))
            == OwnKeys(chain, OutcomeAddresses(outcomes)) + SharedByAll(duplicates, outcomes)
  {
    hide RowKeys, SharedBy, RowsOf, MissedOf, OwnKeys, OutcomeAddresses;
    if outcomes == [] {
      NoRows(duplicates, chain);
    } else {
      var init, last := outcomes[..|outcomes| - 1], outcomes[|outcomes| - 1];
      RowsAndMisses(duplicates, chain, init);
      OneRowMore(duplicates, chain, outcomes);
      MissedMore(chain, outcomes);
      AddressMore(chain, outcomes);
      var rows, missed := RowKeys(RowsOf(duplicates, chain, init)), OwnKeys(chain, MissedOf(init));
      var asked, shared := OwnKeys(chain, OutcomeAddresses(init)), SharedByAll(duplicates, init);
      var own := multiset{AssetOnChain(last.address, chain)};
      if last.Priced? {
        AddBoth(rows, missed, asked, shared, SharedBy(duplicates, last.address), own);
      } else {
        AddBoth(missed, rows, asked, shared, multiset{}, own);
        assert multiset{} + own == own;
      }
    }
  }

  lemma AddBoth(a: multiset<AssetOnChain>, b: multiset<AssetOnChain>, c: multiset<AssetOnChain>,
                d: multiset<AssetOnChain>,
                more: multiset<AssetOnChain>, own: multiset<AssetOnChain>)
    requires a + b == c + d
    ensures a + (more + own) + (b + multiset{}) == c + own + (d + more)
    ensures (b + multiset{}) + (a + (more + own)) == c + own + (d + more)
  {
    var left, right := a + (more + own) + (b + multiset{}), c + own + (d + more);
    forall x
      ensures left[x] == right[x]
    {
      assert (a + b)[x] == (c + d)[x];
    }
    assert left == right;
  }

  lemma NoRows(duplicates: map<string, seq<AssetOnChain>>, chain: int)
    ensures RowKeys(RowsOf(duplicates, chain, [])) == multiset{}
    ensures OwnKeys(chain, MissedOf([])) == multiset{} && OwnKeys(chain, OutcomeAddresses([])) == multiset{}
  {
  }

  lemma AddressMore(chain: int, outcomes: seq<Outcome>)
    requires outcomes != []
    ensures OwnKeys(chain, OutcomeAddresses(outcomes)) ==
            OwnKeys(chain, OutcomeAddresses(outcomes[..|outcomes| - 1])) +
              multiset{AssetOnChain(outcomes[|outcomes| - 1].address, chain)}
  {
    assert OutcomeAddresses(outcomes)[..|outcomes| - 1] == OutcomeAddresses(outcomes[..|outcomes| - 1]);
  }

  lemma MissedMore(chain: int, outcomes: seq<Outcome>)
    requires outcomes != []
    ensures var init, last := outcomes[..|outcomes| - 1], outcomes[|outcomes| - 1];
            OwnKeys(chain, MissedOf(outcomes)) == OwnKeys(chain, MissedOf(init)) +
            if last.Missed? then multiset{AssetOnChain(last.address, chain)} else multiset{}
  {
    var before, after := MissedOf(outcomes[..|outcomes| - 1]), MissedOf(outcomes);
    if outcomes[|outcomes| - 1].Missed? {
      assert after[..|after| - 1] == before;
    } else {
      assert after == before;
    }
  }

  lemma {:induction false} OwnKeysCount(chain: int, addresses: seq<string>, x: AssetOnChain)
    ensures OwnKeys(chain, addresses)[x] == if x.chain == chain then multiset(addresses)[x.address] else 0
  {
    if addresses != [] {
      OwnKeysCount(chain, addresses[..|addresses| - 1], x);
      assert addresses == addresses[..|addresses| - 1] + [addresses[|addresses| - 1]];
    }
  }

  // ---------------------------------------------------------------------------------------
  // All chains
  // ---------------------------------------------------------------------------------------

  function MissedAt(c: Collected, chain: int): seq<string> {
    if chain in c.missed then c.missed[chain] else []
  }

  /** How often a response speaks of an asset: its price rows and its missed entries. */
  function Entries(c: Collected, x: AssetOnChain): nat {
    RowKeys(c.prices)[x] + multiset(MissedAt(c, x.chain))[x.address]
  }

  predicate Aligned(chains: seq<ChainRequests>, answers: seq<seq<Option<seq<Answer>>>>) {
    |chains| == |answers| && forall i :: 0 <= i < |chains| ==> |chains[i].requests| == |answers[i]|
  }

  /** How often an asset is among the outcomes of its own chain. */
  function Asked(chains: seq<ChainRequests>, answers: seq<seq<Option<seq<Answer>>>>, x: AssetOnChain): nat
    requires Aligned(chains, answers)
  {
    if chains == [] then 0
    else
      var n := |chains| - 1;
      Asked(chains[..n], answers[..n], x) +
      if chains[n].chain == x.chain
        then multiset(OutcomeAddresses(OutcomesOfAll(chains[n].requests, answers[n])))[x.address] else 0
  }

  function SharedTotal(duplicates: map<string, seq<AssetOnChain>>, chains: seq<ChainRequests>,
                       answers: seq<seq<Option<seq<Answer>>>>): multiset<AssetOnChain>
    requires Aligned(chains, answers)
  {
    if chains == [] then multiset{}
    else
      var n := |chains| - 1;
      SharedTotal(duplicates, chains[..n], answers[..n]) +
        SharedByAll(duplicates, OutcomesOfAll(chains[n].requests, answers[n]))
  }

  lemma MissedAtExtended(duplicates: map<string, seq<AssetOnChain>>, chain: int, c: Collected, outcomes: seq<Outcome>,
                         at: int)
    ensures MissedAt(Extended(duplicates, chain, c, outcomes), at)
            == MissedAt(c, at) + if at == chain then MissedOf(outcomes) else []
  {
    hide RowsOf, MissedOf;
  }

  lemma EntriesExtended(duplicates: map<string, seq<AssetOnChain>>, chain: int, c: Collected, outcomes: seq<Outcome>,
                        x: AssetOnChain)
    ensures Entries(Extended(duplicates, chain, c, outcomes), x) ==
            Entries(c, x) + SharedByAll(duplicates, outcomes)[x] +
            if chain == x.chain then multiset(OutcomeAddresses(outcomes))[x.address] else 0
  {
    MissedAtExtended(duplicates, chain, c, outcomes, x.chain);
    RowKeysAppend(c.prices, RowsOf(duplicates, chain, outcomes));
    RowsAndMisses(duplicates, chain, outcomes);
    OwnKeysCount(chain, MissedOf(outcomes), x);
    OwnKeysCount(chain, OutcomeAddresses(outcomes), x);
    hide RowsOf, MissedOf, RowKeys, OwnKeys, SharedByAll, OutcomeAddresses, MissedAt;
    var rows, misses := RowKeys(RowsOf(duplicates, chain, outcomes)), OwnKeys(chain, MissedOf(outcomes));
    assert (rows + misses)[x] == rows[x] + misses[x];
  }

  lemma {:induction false} EntriesOfAll(duplicates: map<string, seq<AssetOnChain>>, chains: seq<ChainRequests>,
                                        answers: seq<seq<Option<seq<Answer>>>>, x: AssetOnChain)
    requires Aligned(chains, answers)
    ensures Entries(CollectAll(duplicates, chains, answers), x)
            == Asked(chains, answers, x) + SharedTotal(duplicates, chains, answers)[x]
  {
    hide Extended, OutcomesOfAll, SharedByAll, OutcomeAddresses;
    if chains == [] {
      NothingCollected(x);
    } else {
      var n := |chains| - 1;
      EntriesOfAll(duplicates, chains[..n], answers[..n], x);
      EntriesExtended(duplicates, chains[n].chain, CollectAll(duplicates, chains[..n], answers[..n]),
                      OutcomesOfAll(chains[n].requests, answers[n]), x);
    }
  }

  lemma NothingCollected(x: AssetOnChain)
    ensures Entries(Collected([], map[]), x) == 0
  {
  }

  predicate DistinctChains(chains: seq<ChainRequests>) {
    forall i, j :: 0 <= i < j < |chains| ==> chains[i].chain != chains[j].chain
  }

  lemma {:induction false} AskedNowhere(chains: seq<ChainRequests>, answers: seq<seq<Option<seq<Answer>>>>,
                                        x: AssetOnChain)
    requires Aligned(chains, answers) && forall i :: 0 <= i < |chains| ==> chains[i].chain != x.chain
    ensures Asked(chains, answers, x) == 0
  {
    if chains != [] {
      AskedNowhere(chains[..|chains| - 1], answers[..|chains| - 1], x);
    }
  }

  lemma {:induction false} AskedAt(chains: seq<ChainRequests>, answers: seq<seq<Option<seq<Answer>>>>, i: nat,
                                   address: string)
    requires Aligned(chains, answers) && DistinctChains(chains) && i < |chains|
    ensures Asked(chains, answers, AssetOnChain(address, chains[i].chain))
            == multiset(OutcomeAddresses(OutcomesOfAll(chains[i].requests, answers[i])))[address]
  {
    hide OutcomesOfAll, OutcomeAddresses;
    var n := |chains| - 1;
    if i == n {
      AskedNowhere(chains[..n], answers[..n], AssetOnChain(address, chains[i].chain));
    } else {
      AskedAt(chains[..n], answers[..n], i, address);
    }
  }

  lemma {:induction false} MissedNowhere(duplicates: map<string, seq<AssetOnChain>>, chains: seq<ChainRequests>,
                                         answers: seq<seq<Option<seq<Answer>>>>, chain: int)
    requires Aligned(chains, answers) && forall i :: 0 <= i < |chains| ==> chains[i].chain != chain
    ensures MissedAt(CollectAll(duplicates, chains, answers), chain) == []
  {
    hide Extended, OutcomesOfAll;
    if chains != [] {
      var n := |chains| - 1;
      MissedNowhere(duplicates, chains[..n], answers[..n], chain);
      MissedAtExtended(duplicates, chains[n].chain, CollectAll(duplicates, chains[..n], answers[..n]),
                       OutcomesOfAll(chains[n].requests, answers[n]), chain);
    }
  }

  lemma {:induction false} MissedOfChain(duplicates: map<string, seq<AssetOnChain>>, chains: seq<ChainRequests>,
                                         answers: seq<seq<Option<seq<Answer>>>>, i: nat)
    requires Aligned(chains, answers) && DistinctChains(chains) && i < |chains|
    ensures MissedAt(CollectAll(duplicates, chains, answers), chains[i].chain)
            == MissedOf(OutcomesOfAll(chains[i].requests, answers[i]))
  {
    hide Extended, OutcomesOfAll, MissedOf, MissedAt;
    var n := |chains| - 1;
    MissedAtExtended(duplicates, chains[n].chain, CollectAll(duplicates, chains[..n], answers[..n]),
                     OutcomesOfAll(chains[n].requests, answers[n]), chains[i].chain);
    if i == n {
      MissedNowhere(duplicates, chains[..n], answers[..n], chains[i].chain);
    } else {
      MissedOfChain(duplicates, chains[..n], answers[..n], i);
    }
  }

  // ---------------------------------------------------------------------------------------
  // The theorem on what is returned
  // ---------------------------------------------------------------------------------------

  /** One list per chain; in each, every address once, and the ids of a request distinct. */
  ghost predicate WellListed(chains: seq<ChainAssets>) {
    && (forall i, j :: 0 <= i < j < |chains| ==> chains[i].chain != chains[j].chain)
    && (forall i :: 0 <= i < |chains| ==>
        Distinct(AssetAddresses(chains[i].assets)) && AllTidy(PartsOf(chains[i].assets)))
  }

  /** One answer, or a rejection, for every request. */
  ghost predicate Answers(chains: seq<ChainAssets>, answers: seq<seq<Option<seq<Answer>>>>) {
    |answers| == |chains| && forall i :: 0 <= i < |chains| ==> |answers[i]| == |PartsOf(chains[i].assets)|
  }

  function Response(duplicates: map<string, seq<AssetOnChain>>, chains: seq<ChainAssets>, platformOf: int -> string,
                    answers: seq<seq<Option<seq<Answer>>>>): Collected
    requires Answers(chains, answers)
  {
    CollectAll(duplicates, RequestsOfChains(chains, platformOf), answers)
  }

  lemma {:induction false} FulfilledAreAsked(parts: seq<seq<Asset>>, answers: seq<Option<seq<Answer>>>, address: string)
    requires |parts| == |answers|
    ensures multiset(AssetAddresses(FulfilledAssets(parts, answers)))[address]
            <= multiset(AssetAddresses(Flatten(parts)))[address]
  {
    if parts != [] {
      var n := |parts| - 1;
      FulfilledAreAsked(parts[..n], answers[..n], address);
      assert parts == parts[..n] + [parts[n]];
      FlattenAppend(parts[..n], [parts[n]]);
      FlattenOne(parts[n]);
      AddressesAppend(Flatten(parts[..n]), parts[n]);
      AddressesAppend(FulfilledAssets(parts[..n], answers[..n]), if answers[n].Some? then parts[n] else []);
      hide Flatten;
    }
  }

  lemma AddressesAppend(a: seq<Asset>, b: seq<Asset>)
    ensures AssetAddresses(a + b) == AssetAddresses(a) + AssetAddresses(b)
  {
  }

  /** An asset of a fulfilled request is once among its chain's outcomes. */
  lemma AskedOnce(assets: seq<Asset>, platformId: string, answers: seq<Option<seq<Answer>>>, a: Asset)
    requires Distinct(AssetAddresses(assets)) && AllTidy(PartsOf(assets)) && |answers| == |PartsOf(assets)|
    requires a in FulfilledAssets(PartsOf(assets), answers)
    ensures multiset(OutcomeAddresses(OutcomesOfAll(RequestsOf(PartsOf(assets), platformId), answers)))[a.address] == 1
  {
    var parts := PartsOf(assets);
    var fulfilled := FulfilledAssets(parts, answers);
    ChainAddresses(parts, platformId, answers);
    FulfilledAreAsked(parts, answers, a.address);
    EveryAssetIsAskedForOnce(assets);
    AddressesPermute(Flatten(parts), assets);
    DistinctCountsOnce(AssetAddresses(assets), a.address);
    var i :| 0 <= i < |fulfilled| && fulfilled[i] == a;
    assert AssetAddresses(fulfilled)[i] == a.address;
    assert a.address in multiset(AssetAddresses(fulfilled));
  }

  /** The response speaks of an asset of a fulfilled request once on its own account, and once
      more for every registration of it with a priced asset of any chain. */
  lemma EntriesOfAsset(duplicates: map<string, seq<AssetOnChain>>, chains: seq<ChainAssets>, platformOf: int -> string,
                       answers: seq<seq<Option<seq<Answer>>>>, i: nat, a: Asset)
    requires WellListed(chains) && Answers(chains, answers) && i < |chains|
    requires a in FulfilledAssets(PartsOf(chains[i].assets), answers[i])
    ensures Entries(Response(duplicates, chains, platformOf, answers), AssetOnChain(a.address, chains[i].chain))
            == 1 + SharedTotal(duplicates, RequestsOfChains(chains, platformOf),
                               answers)[AssetOnChain(a.address, chains[i].chain)]
  {
    hide PartsOf, AllTidy, CollectAll, Entries, Asked, SharedTotal;
    var requests := RequestsOfChains(chains, platformOf);
    EntriesOfAll(duplicates, requests, answers, AssetOnChain(a.address, chains[i].chain));
    AskedAt(requests, answers, i, a.address);
    AskedOnce(chains[i].assets, platformOf(chains[i].chain), answers[i], a);
  }

  predicate SharesPrice(duplicates: map<string, seq<AssetOnChain>>, address: string, x: AssetOnChain) {
    address in duplicates && x in duplicates[address]
  }

  /** No listed asset is registered as sharing the price of a listed asset. */
  ghost predicate NoneShared(duplicates: map<string, seq<AssetOnChain>>, chains: seq<ChainAssets>) {
    forall i, j, a, y | 0 <= i < |chains| && 0 <= j < |chains| && a in chains[i].assets && y in chains[j].assets ::
      !SharesPrice(duplicates, y.address, AssetOnChain(a.address, chains[i].chain))
  }

  /** Every asset of a fulfilled request has exactly one price row and no missed entry, or no
      price row and exactly one missed entry. */
  ghost predicate EachOnce(duplicates: map<string, seq<AssetOnChain>>, chains: seq<ChainAssets>,
                           platformOf: int -> string,
                           answers: seq<seq<Option<seq<Answer>>>>)
    requires Answers(chains, answers)
  {
    forall i, a | 0 <= i < |chains| && a in FulfilledAssets(PartsOf(chains[i].assets), answers[i]) ::
      Entries(Response(duplicates, chains, platformOf, answers), AssetOnChain(a.address, chains[i].chain)) == 1
  }

  lemma {:induction false} SharedByOutcome(duplicates: map<string, seq<AssetOnChain>>, outcomes: seq<Outcome>,
                                           x: AssetOnChain)
    returns (k: nat)
    ensures SharedByAll(duplicates, outcomes)[x] > 0 ==>
              k < |outcomes| && outcomes[k].Priced? && SharesPrice(duplicates, outcomes[k].address, x)
    ensures forall m ::
              0 <= m < |outcomes| && outcomes[m].Priced? && SharesPrice(duplicates, outcomes[m].address, x) ==>
                          SharedByAll(duplicates, outcomes)[x] > 0
  {
    k := 0;
    if outcomes != [] {
      var init, last := outcomes[..|outcomes| - 1], outcomes[|outcomes| - 1];
      k := SharedByOutcome(duplicates, init, x);
      if last.Priced? && SharesPrice(duplicates, last.address, x) {
        k := |init|;
        assert SharedBy(duplicates, last.address)[x] > 0;
      }
      forall m | 0 <= m < |outcomes| && outcomes[m].Priced? && SharesPrice(duplicates, outcomes[m].address, x)
        ensures SharedByAll(duplicates, outcomes)[x] > 0
      {
        if m < |init| {
          assert init[m] == outcomes[m];
        }
      }
    }
  }

  lemma {:induction false} SharedByChain(duplicates: map<string, seq<AssetOnChain>>, chains: seq<ChainRequests>,
                                         answers: seq<seq<Option<seq<Answer>>>>, x: AssetOnChain) returns (j: nat)
    requires Aligned(chains, answers)
    ensures SharedTotal(duplicates, chains, answers)[x] > 0 ==>
              j < |chains| && SharedByAll(duplicates, OutcomesOfAll(chains[j].requests, answers[j]))[x] > 0
  {
    hide OutcomesOfAll, SharedByAll;
    j := 0;
    if chains != [] {
      var n := |chains| - 1;
      j := SharedByChain(duplicates, chains[..n], answers[..n], x);
      if SharedByAll(duplicates, OutcomesOfAll(chains[n].requests, answers[n]))[x] > 0 {
        j := n;
      }
    }
  }

  lemma {:induction false} SharedBySome(duplicates: map<string, seq<AssetOnChain>>, chains: seq<ChainRequests>,
                                        answers: seq<seq<Option<seq<Answer>>>>, x: AssetOnChain, j: nat)
    requires Aligned(chains, answers) && j < |chains|
    requires SharedByAll(duplicates, OutcomesOfAll(chains[j].requests, answers[j]))[x] > 0
    ensures SharedTotal(duplicates, chains, answers)[x] > 0
  {
    hide OutcomesOfAll, SharedByAll;
    var n := |chains| - 1;
    if j < n {
      SharedBySome(duplicates, chains[..n], answers[..n], x, j);
    }
  }

  /** Every outcome of a chain is of one of its assets. */
  lemma OutcomeIsOfAsset(assets: seq<Asset>, platformId: string, answers: seq<Option<seq<Answer>>>, k: nat)
    returns (y: Asset)
    requires AllTidy(PartsOf(assets)) && |answers| == |PartsOf(assets)|
    requires k < |OutcomesOfAll(RequestsOf(PartsOf(assets), platformId), answers)|
    ensures y in assets && y.address == OutcomesOfAll(RequestsOf(PartsOf(assets), platformId), answers)[k].address
  {
    var parts := PartsOf(assets);
    var outcomes, fulfilled := OutcomesOfAll(RequestsOf(parts, platformId), answers), FulfilledAssets(parts, answers);
    ChainAddresses(parts, platformId, answers);
    assert AssetAddresses(fulfilled)[k] == OutcomeAddresses(outcomes)[k];
    y := fulfilled[k];
    FulfilledAreListed(parts, answers, y);
    EveryAssetIsAskedForOnce(assets);
    assert y in multiset(Flatten(parts));
    assert y in multiset(assets);
  }

  lemma {:induction false} FulfilledAreListed(parts: seq<seq<Asset>>, answers: seq<Option<seq<Answer>>>, a: Asset)
    requires |parts| == |answers|
    ensures a in FulfilledAssets(parts, answers) ==> a in Flatten(parts)
  {
    if parts != [] {
      var n := |parts| - 1;
      FulfilledAreListed(parts[..n], answers[..n], a);
      assert parts == parts[..n] + [parts[n]];
      FlattenAppend(parts[..n], [parts[n]]);
      FlattenOne(parts[n]);
      hide Flatten;
    }
  }

  lemma NoneSharedMeansOnce(duplicates: map<string, seq<AssetOnChain>>, chains: seq<ChainAssets>,
                            platformOf: int -> string,
                            answers: seq<seq<Option<seq<Answer>>>>)
    requires WellListed(chains) && Answers(chains, answers) && NoneShared(duplicates, chains)
    ensures EachOnce(duplicates, chains, platformOf, answers)
  {
    hide PartsOf, AllTidy, Entries, Response, SharedTotal, SharedByAll, OutcomesOfAll, SharesPrice, FulfilledAssets;
    var requests := RequestsOfChains(chains, platformOf);
    forall i, a | 0 <= i < |chains| && a in FulfilledAssets(PartsOf(chains[i].assets), answers[i])
      ensures Entries(Response(duplicates, chains, platformOf, answers), AssetOnChain(a.address, chains[i].chain)) == 1
    {
      var x := AssetOnChain(a.address, chains[i].chain);
      EntriesOfAsset(duplicates, chains, platformOf, answers, i, a);
      IsListed(chains[i].assets, answers[i], a);
      var j := SharedByChain(duplicates, requests, answers, x);
      if SharedTotal(duplicates, requests, answers)[x] > 0 {
        var outcomes := OutcomesOfAll(requests[j].requests, answers[j]);
        var k := SharedByOutcome(duplicates, outcomes, x);
        var y := OutcomeIsOfAsset(chains[j].assets, platformOf(chains[j].chain), answers[j], k);
        assert false;
      }
    }
  }

  lemma IsListed(assets: seq<Asset>, answers: seq<Option<seq<Answer>>>, a: Asset)
    requires |answers| == |PartsOf(assets)| && a in FulfilledAssets(PartsOf(assets), answers)
    ensures a in assets
  {
    FulfilledAreListed(PartsOf(assets), answers, a);
    EveryAssetIsAskedForOnce(assets);
    assert a in multiset(Flatten(PartsOf(assets)));
    assert a in multiset(assets);
  }

  // ---------------------------------------------------------------------------------------
  // A response that quotes everything
  // ---------------------------------------------------------------------------------------

  function QuotedAll(part: seq<Asset>): (r: seq<Answer>)
    ensures |r| == |part| && forall i :: 0 <= i < |r| ==> r[i] == Answer(part[i].Key(), Some(1.0))
  {
    seq(|part|, i requires 0 <= i < |part| => Answer(part[i].Key(), Some(1.0)))
  }

  function FullAnswers(parts: seq<seq<Asset>>): (r: seq<Option<seq<Answer>>>)
    ensures |r| == |parts| && forall i :: 0 <= i < |r| ==> r[i] == Some(QuotedAll(parts[i]))
  {
    seq(|parts|, i requires 0 <= i < |parts| => Some(QuotedAll(parts[i])))
  }

  lemma {:induction false} QuotedIsFound(data: seq<Answer>, k: nat)
    requires k < |data| && forall i :: 0 <= i < |data| ==> data[i].usd == Some(1.0)
    ensures FindUsd(data, data[k].key) == Some(1.0)
  {
    if data[|data| - 1].key != data[k].key {
      QuotedIsFound(data[..|data| - 1], k);
    }
  }

  predicate AllPriced(outcomes: seq<Outcome>) {
    forall i :: 0 <= i < |outcomes| ==> outcomes[i].Priced?
  }

  lemma QuotedPartIsPriced(part: seq<Asset>)
    ensures NoStrays(part, QuotedAll(part)) && AllPriced(Expected(part, QuotedAll(part)))
  {
    hide Asset.Key;
    var data := QuotedAll(part);
    forall i | 0 <= i < |part|
      ensures Expected(part, data)[i].Priced?
    {
      QuotedIsFound(data, i);
    }
  }

  lemma {:induction false} QuotedPartsArePriced(parts: seq<seq<Asset>>)
    ensures AllPriced(ExpectedOfAll(parts, FullAnswers(parts)))
  {
    hide Expected, QuotedAll;
    if parts != [] {
      var n := |parts| - 1;
      QuotedPartsArePriced(parts[..n]);
      QuotedPartIsPriced(parts[n]);
      assert FullAnswers(parts)[..n] == FullAnswers(parts[..n]);
    }
  }

  /** Every asset of a chain whose requests are all answered in full is priced. */
  lemma QuotedAssetIsPriced(assets: seq<Asset>, platformId: string, y: Asset) returns (k: nat)
    requires AllTidy(PartsOf(assets)) && y in assets
    ensures var outcomes := OutcomesOfAll(RequestsOf(PartsOf(assets), platformId), FullAnswers(PartsOf(assets)));
            k < |outcomes| && outcomes[k].Priced? && outcomes[k].address == y.address
    ensures y in FulfilledAssets(PartsOf(assets), FullAnswers(PartsOf(assets)))
  {
    var parts := PartsOf(assets);
    var answers := FullAnswers(parts);
    EveryAssetIsAskedForOnce(assets);
    assert y in multiset(assets);
    assert y in multiset(Flatten(parts));
    AllFulfilled(parts, answers);
    forall i | 0 <= i < |parts|
      ensures NoStrays(parts[i], QuotedAll(parts[i]))
    {
      QuotedPartIsPriced(parts[i]);
    }
    hide PartsOf, Tidy, IsPart, NoStrays, Flatten, FulfilledAssets, OutcomesOfAll, ExpectedOfAll;
    OutcomesAreExpected(parts, platformId, answers);
    ChainAddresses(parts, platformId, answers);
    QuotedPartsArePriced(parts);
    var fulfilled := FulfilledAssets(parts, answers);
    k :| 0 <= k < |fulfilled| && fulfilled[k] == y;
    assert OutcomeAddresses(OutcomesOfAll(RequestsOf(parts, platformId), answers))[k] == AssetAddresses(fulfilled)[k];
  }

  function FullResponse(chains: seq<ChainAssets>): (r: seq<seq<Option<seq<Answer>>>>)
    ensures |r| == |chains| && forall i :: 0 <= i < |r| ==> r[i] == FullAnswers(PartsOf(chains[i].assets))
  {
    seq(|chains|, i requires 0 <= i < |chains| => FullAnswers(PartsOf(chains[i].assets)))
  }

  /** An asset registered with a listed asset is spoken of more than once when both are quoted. */
  lemma SharedMeansTwice(duplicates: map<string, seq<AssetOnChain>>, chains: seq<ChainAssets>,
                         platformOf: int -> string,
                         i: nat, j: nat, a: Asset, y: Asset)
    requires WellListed(chains) && i < |chains| && j < |chains| && a in chains[i].assets && y in chains[j].assets
    requires SharesPrice(duplicates, y.address, AssetOnChain(a.address, chains[i].chain))
    ensures Answers(chains, FullResponse(chains))
            && a in FulfilledAssets(PartsOf(chains[i].assets), FullResponse(chains)[i])
    ensures Entries(Response(duplicates, chains, platformOf, FullResponse(chains)),
                    AssetOnChain(a.address, chains[i].chain)) > 1
  {
    hide PartsOf, AllTidy, Entries, Response, SharedTotal, SharedByAll, OutcomesOfAll, SharesPrice, FulfilledAssets,
         FullAnswers;
    var x, requests, answers := AssetOnChain(a.address, chains[i].chain), RequestsOfChains(chains, platformOf),
      FullResponse(chains);
    var k := QuotedAssetIsPriced(chains[j].assets, platformOf(chains[j].chain), y);
    var own := QuotedAssetIsPriced(chains[i].assets, platformOf(chains[i].chain), a);
    var some := SharedByOutcome(duplicates, OutcomesOfAll(requests[j].requests, answers[j]), x);
    SharedBySome(duplicates, requests, answers, x, j);
    EntriesOfAsset(duplicates, chains, platformOf, answers, i, a);
  }

  /** Conservation: whatever is answered and whatever is rejected, every asset of a fulfilled
      request has exactly one price row or exactly one missed entry, never both, if and only
      if no listed asset is registered as sharing the price of a listed asset. */
  lemma EachOnceIffNoneShared(duplicates: map<string, seq<AssetOnChain>>, chains: seq<ChainAssets>,
                              platformOf: int -> string)
    requires WellListed(chains)
    ensures (forall answers | Answers(chains, answers) :: EachOnce(duplicates, chains, platformOf, answers))
            <==> NoneShared(duplicates, chains)
  {
    if NoneShared(duplicates, chains) {
      forall answers | Answers(chains, answers)
        ensures EachOnce(duplicates, chains, platformOf, answers)
      {
        NoneSharedMeansOnce(duplicates, chains, platformOf, answers);
      }
    } else {
      hide SharesPrice, WellListed, PartsOf, FulfilledAssets, Entries, Response, FullResponse;
      var i, j, a, y :| 0 <= i < |chains| && 0 <= j < |chains| && a in chains[i].assets && y in chains[j].assets
                        && SharesPrice(duplicates, y.address, AssetOnChain(a.address, chains[i].chain));
      SharedMeansTwice(duplicates, chains, platformOf, i, j, a, y);
      assert !EachOnce(duplicates, chains, platformOf, FullResponse(chains));
    }
  }

  // ---------------------------------------------------------------------------------------
  // Which entry it is
  // ---------------------------------------------------------------------------------------

  function UnquotedOf(part: seq<Asset>, data: seq<Answer>): seq<string> {
    if part == [] then []
    else
      UnquotedOf(part[..|part| - 1], data) +
      if FindUsd(data, part[|part| - 1].Key()).None? then [part[|part| - 1].address] else []
  }

  /** The assets of fulfilled requests whose own key has no price in the answer. */
  function Unquoted(parts: seq<seq<Asset>>, answers: seq<Option<seq<Answer>>>): seq<string>
    requires |parts| == |answers|
  {
    if parts == [] then []
    else
      Unquoted(parts[..|parts| - 1], answers[..|answers| - 1]) +
      match answers[|answers| - 1]
      case Some(data) => UnquotedOf(parts[|parts| - 1], data)
      case None => []
  }

  lemma {:induction false} MissedOfPart(part: seq<Asset>, data: seq<Answer>)
    ensures MissedOf(Expected(part, data)) == UnquotedOf(part, data)
  {
    hide Asset.Key, FindUsd;
    if part != [] {
      MissedOfPart(part[..|part| - 1], data);
      var outcomes := Expected(part, data);
      assert outcomes[..|part| - 1] == Expected(part[..|part| - 1], data);
    }
  }

  lemma {:induction false} MissedOfParts(parts: seq<seq<Asset>>, answers: seq<Option<seq<Answer>>>)
    requires |parts| == |answers|
    ensures MissedOf(ExpectedOfAll(parts, answers)) == Unquoted(parts, answers)
  {
    hide Expected, MissedOf, UnquotedOf;
    if parts == [] {
      NothingMissed();
    } else {
      var n := |parts| - 1;
      MissedOfParts(parts[..n], answers[..n]);
      if answers[n].Some? {
        MissedOfPart(parts[n], answers[n].value);
        RowsAppend(map[], 0, ExpectedOfAll(parts[..n], answers[..n]), Expected(parts[n], answers[n].value));
      } else {
        assert ExpectedOfAll(parts, answers) == ExpectedOfAll(parts[..n], answers[..n]);
      }
    }
  }

  lemma NothingMissed()
    ensures MissedOf([]) == []
  {
  }

  ghost predicate NoStrayAnswers(chains: seq<ChainAssets>, answers: seq<seq<Option<seq<Answer>>>>)
    requires Answers(chains, answers)
  {
    forall i :: 0 <= i < |chains| ==> WellAnswered(PartsOf(chains[i].assets), answers[i])
  }

  /** A chain's missed entries are exactly its unquoted assets, in order. */
  lemma MissedAreUnquoted(duplicates: map<string, seq<AssetOnChain>>, chains: seq<ChainAssets>,
                          platformOf: int -> string,
                          answers: seq<seq<Option<seq<Answer>>>>, i: nat)
    requires WellListed(chains) && Answers(chains, answers) && NoStrayAnswers(chains, answers) && i < |chains|
    ensures MissedAt(Response(duplicates, chains, platformOf, answers), chains[i].chain)
            == Unquoted(PartsOf(chains[i].assets), answers[i])
  {
    hide PartsOf, CollectAll, WellAnswered, OutcomesOfAll, ExpectedOfAll, Unquoted, MissedAt, MissedOf, Tidy, IsPart;
    var parts := PartsOf(chains[i].assets);
    MissedOfChain(duplicates, RequestsOfChains(chains, platformOf), answers, i);
    OutcomesAreExpected(parts, platformOf(chains[i].chain), answers[i]);
    MissedOfParts(parts, answers[i]);
  }

  lemma {:induction false} ExpectedHas(parts: seq<seq<Asset>>, answers: seq<Option<seq<Answer>>>, k: nat, m: nat)
    requires |parts| == |answers| && k < |parts| && m < |parts[k]| && answers[k].Some?
    ensures Expected(parts[k], answers[k].value)[m] in ExpectedOfAll(parts, answers)
  {
    hide Expected;
    if k < |parts| - 1 {
      ExpectedHas(parts[..|parts| - 1], answers[..|answers| - 1], k, m);
    }
  }

  lemma {:induction false} RowsHave(duplicates: map<string, seq<AssetOnChain>>, chain: int, outcomes: seq<Outcome>,
                                    o: Outcome)
    requires o in outcomes && o.Priced?
    ensures PriceRow(o.address, o.price, chain) in RowsOf(duplicates, chain, outcomes)
  {
    hide DuplicateRows;
    var init, last := outcomes[..|outcomes| - 1], outcomes[|outcomes| - 1];
    if last == o {
      assert PriceRow(o.address, o.price, chain) in [PriceRow(o.address, o.price, chain)];
    } else {
      assert outcomes == init + [last];
      RowsHave(duplicates, chain, init, o);
    }
  }

  lemma {:induction false} CollectHas(duplicates: map<string, seq<AssetOnChain>>, chains: seq<ChainRequests>,
                                      answers: seq<seq<Option<seq<Answer>>>>, i: nat, row: PriceRow)
    requires Aligned(chains, answers) && i < |chains|
    requires row in RowsOf(duplicates, chains[i].chain, OutcomesOfAll(chains[i].requests, answers[i]))
    ensures row in CollectAll(duplicates, chains, answers).prices
  {
    hide RowsOf, OutcomesOfAll, Note;
    if i < |chains| - 1 {
      CollectHas(duplicates, chains[..|chains| - 1], answers[..|chains| - 1], i, row);
    }
  }

  /** A quoted asset of a fulfilled request has a row with its own key's price, under its own
      address and chain. */
  lemma QuotedHasOwnRow(duplicates: map<string, seq<AssetOnChain>>, chains: seq<ChainAssets>, platformOf: int -> string,
                        answers: seq<seq<Option<seq<Answer>>>>, i: nat, k: nat, m: nat)
    requires WellListed(chains) && Answers(chains, answers) && NoStrayAnswers(chains, answers) && i < |chains|
    requires k < |PartsOf(chains[i].assets)| && m < |PartsOf(chains[i].assets)[k]| && answers[i][k].Some?
    ensures var a := PartsOf(chains[i].assets)[k][m];
            FindUsd(answers[i][k].value, a.Key()).Some? ==>
              PriceRow(a.address, FindUsd(answers[i][k].value, a.Key()).value, chains[i].chain)
              in Response(duplicates, chains, platformOf, answers).prices
  {
    hide PartsOf, CollectAll, WellAnswered, OutcomesOfAll, ExpectedOfAll, RowsOf, FindUsd, Tidy, IsPart, Asset.Key;
    var parts := PartsOf(chains[i].assets);
    var a: Asset := parts[k][m];
    if FindUsd(answers[i][k].value, a.Key()).Some? {
      OutcomesAreExpected(parts, platformOf(chains[i].chain), answers[i]);
      ExpectedHas(parts, answers[i], k, m);
      var o := Expected(parts[k], answers[i][k].value)[m];
      var outcomes := ExpectedOfAll(parts, answers[i]);
      RowsHave(duplicates, chains[i].chain, outcomes, o);
      CollectHas(duplicates, RequestsOfChains(chains, platformOf), answers, i,
                 PriceRow(o.address, o.price, chains[i].chain));
    }
  }

  // ---------------------------------------------------------------------------------------
  // Shared ids
  // ---------------------------------------------------------------------------------------

  predicate Listed(extras: seq<Extra>, id: string) {
    exists i :: 0 <= i < |extras| && extras[i].id == id
  }

  lemma {:induction false} PutExtraMeans(extras: seq<Extra>, e: Extra, id: string)
    ensures Listed(PutExtra(extras, e), id) <==> Listed(extras, id) || id == e.id
    ensures |PutExtra(extras, e)| == if Listed(extras, e.id) then |extras| else |extras| + 1
  {
    if extras == [] {
      assert id == e.id ==> [e][0].id == id;
    } else {
      ListedStep(extras, id);
      ListedStep(extras, e.id);
      ListedStep(PutExtra(extras, e), id);
      if extras[0].id != e.id {
        PutExtraMeans(extras[1..], e, id);
        assert PutExtra(extras, e)[1..] == PutExtra(extras[1..], e);
      } else {
        assert PutExtra(extras, e)[1..] == extras[1..];
      }
    }
  }

  lemma ListedStep(extras: seq<Extra>, id: string)
    requires extras != []
    ensures Listed(extras, id) <==> extras[0].id == id || Listed(extras[1..], id)
  {
    if i :| 0 <= i < |extras| && extras[i].id == id && i > 0 {
      assert extras[1..][i - 1].id == id;
    }
    if i :| 0 <= i < |extras[1..]| && extras[1..][i].id == id {
      assert extras[i + 1].id == id;
    }
  }

  lemma {:induction false} ExtrasListIds(part: seq<Asset>, id: string)
    ensures Listed(ExtrasOf(part), id) <==> exists i :: 0 <= i < |part| && part[i].Key() == id
  {
    hide Asset.Key, PutExtra;
    if part != [] {
      var init, last := part[..|part| - 1], part[|part| - 1];
      ExtrasListIds(init, id);
      PutExtraMeans(ExtrasOf(init), Extra(last.Key(), last.address), id);
      hide Listed;
      if i :| 0 <= i < |part| && part[i].Key() == id && i < |init| {
        assert init[i].Key() == id;
      }
      if i :| 0 <= i < |init| && init[i].Key() == id {
        assert part[i].Key() == id;
      }
      assert last.Key() == id ==> part[|part| - 1].Key() == id;
    }
  }

  lemma {:induction false} ExtrasCount(part: seq<Asset>)
    ensures |ExtrasOf(part)| <= |part|
    ensures |ExtrasOf(part)| == |part| <==> DistinctIds(part)
  {
    hide Asset.Key, PutExtra, Listed;
    if part != [] {
      var init, last := part[..|part| - 1], part[|part| - 1];
      ExtrasCount(init);
      ExtrasListIds(init, last.Key());
      PutExtraMeans(ExtrasOf(init), Extra(last.Key(), last.address), last.Key());
      assert part == init + [last];
      if i :| 0 <= i < |init| && init[i].Key() == last.Key() {
        assert part[i].Key() == part[|part| - 1].Key();
      }
    }
  }

  /** A fulfilled request by ids accounts for all its assets exactly when no two share an id;
      otherwise some asset ends up neither priced nor missed. */
  lemma SharedIdsLoseAssets(part: seq<Asset>, platformId: string, data: seq<Answer>)
    requires part != [] && part[0].HasId()
    ensures |OutcomesOf(RequestOf(part, platformId), Some(data))| == |part| <==> DistinctIds(part)
  {
    hide Rekeyed, DistinctIds, ExtrasOf;
    ExtrasCount(part);
  }

  predicate DistinctExtras(extras: seq<Extra>) {
    forall i, j :: 0 <= i < j < |extras| ==> extras[i].id != extras[j].id
  }

  lemma {:induction false} PutExtraReplaces(extras: seq<Extra>, e: Extra)
    requires DistinctExtras(extras)
    ensures DistinctExtras(PutExtra(extras, e))
    ensures forall x :: x in PutExtra(extras, e) <==> x == e || (x in extras && x.id != e.id)
  {
    if extras != [] {
      assert extras == [extras[0]] + extras[1..];
      var r := PutExtra(extras, e);
      if extras[0].id == e.id {
        assert r == [e] + extras[1..];
      } else {
        PutExtraReplaces(extras[1..], e);
        var rest := PutExtra(extras[1..], e);
        assert r == [extras[0]] + rest;
        forall j | 0 <= j < |rest|
          ensures rest[j].id != extras[0].id
        {
          assert rest[j] in rest;
        }
      }
    }
  }

  /** No later asset of the part has the key of asset `i`. */
  predicate IsLastOfKey(part: seq<Asset>, i: int) {
    0 <= i < |part| && forall j :: i < j < |part| ==> part[j].Key() != part[i].Key()
  }

  ghost predicate IsExtraOf(part: seq<Asset>, x: Extra) {
    exists i :: IsLastOfKey(part, i) && x == Extra(part[i].Key(), part[i].address)
  }

  lemma ExtrasStep(part: seq<Asset>, x: Extra)
    requires part != []
    ensures var init, last := part[..|part| - 1], part[|part| - 1];
            IsExtraOf(part, x)
            <==> x == Extra(last.Key(), last.address) || (IsExtraOf(init, x) && x.id != last.Key())
  {
    hide Asset.Key;
    var n := |part| - 1;
    var init := part[..n];
    assert IsLastOfKey(part, n);
    if i :| IsLastOfKey(part, i) && x == Extra(part[i].Key(), part[i].address) && i < n {
      assert IsLastOfKey(init, i);
    }
    if i :| IsLastOfKey(init, i) && x == Extra(init[i].Key(), init[i].address) && x.id != part[n].Key() {
      assert IsLastOfKey(part, i);
    }
  }

  /** The extras of a request are those of the assets whose id no later asset shares. */
  lemma {:induction false} ExtrasAreLast(part: seq<Asset>)
    ensures DistinctExtras(ExtrasOf(part))
    ensures forall x :: x in ExtrasOf(part) <==> IsExtraOf(part, x)
  {
    hide Asset.Key, PutExtra, IsExtraOf, DistinctExtras;
    if part == [] {
      NoExtras();
    } else {
      var init, last := part[..|part| - 1], part[|part| - 1];
      ExtrasAreLast(init);
      PutExtraReplaces(ExtrasOf(init), Extra(last.Key(), last.address));
      forall x
        ensures x in ExtrasOf(part) <==> IsExtraOf(part, x)
      {
        ExtrasStep(part, x);
      }
    }
  }

  lemma NoExtras()
    ensures ExtrasOf([]) == [] && DistinctExtras([]) && forall x :: !IsExtraOf([], x)
  {
  }

  /** Which assets those are: an asset is accounted for exactly when no later asset of the
      request shares its id. */
  lemma LaterSharedIdWins(part: seq<Asset>, platformId: string, data: seq<Answer>, i: nat)
    requires part != [] && part[0].HasId() && i < |part| && Distinct(AssetAddresses(part))
    ensures part[i].address in OutcomeAddresses(OutcomesOf(RequestOf(part, platformId), Some(data)))
            <==> IsLastOfKey(part, i)
  {
    var extras := ExtrasOf(part);
    ExtrasAreLast(part);
    OutcomesAtAddresses(AddressesOf(extras), Rekeyed(data, extras));
    hide Rekeyed, ExtrasOf, Asset.Key, OutcomeAddresses;
    if part[i].address in AddressesOf(extras) {
      var k :| 0 <= k < |extras| && extras[k].address == part[i].address;
      assert extras[k] in extras;
      var j :| IsLastOfKey(part, j) && extras[k] == Extra(part[j].Key(), part[j].address);
      assert AssetAddresses(part)[i] == AssetAddresses(part)[j];
    }
    if IsLastOfKey(part, i) {
      var x := Extra(part[i].Key(), part[i].address);
      assert IsExtraOf(part, x);
      var k :| 0 <= k < |extras| && extras[k] == x;
      assert AddressesOf(extras)[k] == part[i].address;
    }
  }
}
