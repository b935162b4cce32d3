/** Building price requests from a chain's assets: chunks of 175, those with a coingecko id
    asked for by id, the others by contract address. */
module Coingecko {
  import opened Chunks
  import opened Wrappers

  const CHUNK_SIZE: nat := 175

  datatype Asset = Asset(address: string, coingeckoId: Option<string>) {
    /** An empty id counts as none. */
    predicate HasId() {
      coingeckoId.Some? && coingeckoId.value != ""
    }

    /** What the price service knows the asset by. */
    function Key(): string {
      if HasId() then coingeckoId.value else address
    }
  }

  /** An entry of the `extras` object, which keeps its keys in insertion order. */
  datatype Extra = Extra(id: string, address: string)

  datatype Request =
    | ByIds(ids: string, extras: seq<Extra>)
    | ByContracts(platformId: string, contractAddresses: string)

  // ---------------------------------------------------------------------------------------
  // Joining and splitting with commas
  // ---------------------------------------------------------------------------------------

  function Join(parts: seq<string>): string {
    if parts == [] then ""
    else if |parts| == 1 then parts[0]
    else parts[0] + "," + Join(parts[1..])
  }

  /** Never empty: the empty string splits into one empty part. */
  function Split(s: string): (r: seq<string>)
    ensures |r| > 0
  {
    if s == "" then [""]
    else
      var rest := Split(s[1..]);
      if s[0] == ',' then [""] + rest else [[s[0]] + rest[0]] + rest[1..]
  }

  predicate NoComma(s: string) {
    ',' !in s
  }

  lemma {:induction false} SplitPlain(s: string)
    requires NoComma(s)
    ensures Split(s) == [s]
  {
    if s != "" {
      assert s == [s[0]] + s[1..];
      assert s[0] in s;
      SplitPlain(s[1..]);
    }
  }

  lemma {:induction false} SplitFirst(s: string, rest: string)
    requires NoComma(s)
    ensures Split(s + "," + rest) == [s] + Split(rest)
  {
    var all := s + "," + rest;
    if s == "" {
      assert all[1..] == rest;
    } else {
      assert s == [s[0]] + s[1..];
      assert s[0] in s;
      SplitFirst(s[1..], rest);
      assert all[1..] == s[1..] + "," + rest;
    }
  }

  /** Splitting gives back what was joined, for a non-empty list of parts without commas. */
  lemma {:induction false} SplitJoin(parts: seq<string>)
    requires parts != [] && forall p :: p in parts ==> NoComma(p)
    ensures Split(Join(parts)) == parts
  {
    if |parts| == 1 {
      SplitPlain(parts[0]);
    } else {
      SplitFirst(parts[0], Join(parts[1..]));
      SplitJoin(parts[1..]);
    }
  }

  // ---------------------------------------------------------------------------------------
  // Requests
  // ---------------------------------------------------------------------------------------

  function WithIds(assets: seq<Asset>, ids: bool): seq<Asset> {
    if assets == [] then []
    else if assets[|assets| - 1].HasId() == ids then WithIds(assets[..|assets| - 1], ids) + [assets[|assets| - 1]]
    else WithIds(assets[..|assets| - 1], ids)
  }

  function NonEmpty<T>(s: seq<T>): seq<seq<T>> {
    if s == [] then [] else [s]
  }

  /** The two parts of a chunk, each asked for by one request, empty ones left out. */
  function PartsOfChunk(chunk: seq<Asset>): seq<seq<Asset>> {
    NonEmpty(WithIds(chunk, true)) + NonEmpty(WithIds(chunk, false))
  }

  function PartsOfChunks(chunks: seq<seq<Asset>>): seq<seq<Asset>> {
    if chunks == [] then [] else PartsOfChunks(chunks[..|chunks| - 1]) + PartsOfChunk(chunks[|chunks| - 1])
  }

  function PartsOf(assets: seq<Asset>): seq<seq<Asset>> {
    PartsOfChunks(Chunked(assets, CHUNK_SIZE))
  }

  /** A repeated id keeps its place and gets the later address. */
  function PutExtra(extras: seq<Extra>, e: Extra): seq<Extra> {
    if extras == [] then [e]
    else if extras[0].id == e.id then [e] + extras[1..]
    else [extras[0]] + PutExtra(extras[1..], e)
  }

  function ExtrasOf(part: seq<Asset>): seq<Extra> {
    if part == [] then []
    else PutExtra(ExtrasOf(part[..|part| - 1]), Extra(part[|part| - 1].Key(), part[|part| - 1].address))
  }

  function KeysOf(part: seq<Asset>): (r: seq<string>)
    ensures |r| == |part| && forall i :: 0 <= i < |r| ==> r[i] == part[i].Key()
  {
    seq(|part|, i requires 0 <= i < |part| => part[i].Key())
  }

  /** The request for one part. */
  function RequestOf(part: seq<Asset>, platformId: string): Request {
    if part != [] && part[0].HasId() then ByIds(Join(KeysOf(part)), ExtrasOf(part))
    else ByContracts(platformId, Join(KeysOf(part)))
  }

  function RequestsOf(parts: seq<seq<Asset>>, platformId: string): (r: seq<Request>)
    ensures |r| == |parts| && forall i :: 0 <= i < |r| ==> r[i] == RequestOf(parts[i], platformId)
  {
    seq(|parts|, i requires 0 <= i < |parts| => RequestOf(parts[i], platformId))
  }

  lemma {:induction false} WithIdsMeans(assets: seq<Asset>, ids: bool)
    ensures forall a :: a in WithIds(assets, ids) ==> a in assets && a.HasId() == ids
    ensures multiset(assets) == multiset(WithIds(assets, true)) + multiset(WithIds(assets, false))
  {
    if assets != [] {
      WithIdsMeans(assets[..|assets| - 1], ids);
      assert assets == assets[..|assets| - 1] + [assets[|assets| - 1]];
    }
  }

  lemma PartsOfOneChunk(chunk: seq<Asset>)
    ensures multiset(Flatten(PartsOfChunk(chunk))) == multiset(chunk)
  {
    WithIdsMeans(chunk, true);
    var ids, contracts := WithIds(chunk, true), WithIds(chunk, false);
    FlattenAppend(NonEmpty(ids), NonEmpty(contracts));
    FlattenNonEmpty(ids);
    FlattenNonEmpty(contracts);
  }

  lemma FlattenNonEmpty<T>(s: seq<T>)
    ensures Flatten(NonEmpty(s)) == s
  {
    if s != [] {
      assert [s][1..] == [];
      assert s + [] == s;
    }
  }

  lemma FlattenOne<T>(s: seq<T>)
    ensures Flatten([s]) == s
  {
    assert [s][1..] == [];
    assert s + [] == s;
  }

  lemma {:induction false} PartsOfAllChunks(chunks: seq<seq<Asset>>)
    ensures multiset(Flatten(PartsOfChunks(chunks))) == multiset(Flatten(chunks))
  {
    hide PartsOfChunk;
    if chunks != [] {
      var init, last := chunks[..|chunks| - 1], chunks[|chunks| - 1];
      PartsOfAllChunks(init);
      PartsOfOneChunk(last);
      FlattenAppend(init, [last]);
      FlattenOne(last);
      FlattenAppend(PartsOfChunks(init), PartsOfChunk(last));
      hide Flatten;
      assert chunks == init + [last];
      assert PartsOfChunks(chunks) == PartsOfChunks(init) + PartsOfChunk(last);
    }
  }

  /** Every asset of the chain is asked for in exactly one request. */
  lemma EveryAssetIsAskedForOnce(assets: seq<Asset>)
    ensures multiset(Flatten(PartsOf(assets))) == multiset(assets)
  {
    PartsOfAllChunks(Chunked(assets, CHUNK_SIZE));
    ChunksConcatenateBack(assets, CHUNK_SIZE);
  }

  lemma {:induction false} PartsOfFewChunks(chunks: seq<seq<Asset>>, size: nat)
    requires forall i :: 0 <= i < |chunks| ==> |chunks[i]| <= size
    ensures |PartsOfChunks(chunks)| <= 2 * |chunks|
    ensures forall part :: part in PartsOfChunks(chunks) ==> |part| <= size
  {
    if chunks != [] {
      var init, last := chunks[..|chunks| - 1], chunks[|chunks| - 1];
      PartsOfFewChunks(init, size);
      WithIdsMeans(last, true);
      assert |last| == |multiset(last)| == |WithIds(last, true)| + |WithIds(last, false)| by {
        var ids, contracts := WithIds(last, true), WithIds(last, false);
        assert |multiset(ids)| == |ids| && |multiset(contracts)| == |contracts|;
      }
    }
  }

  /** A request asks for at most 175 assets, and a chain takes at most two requests for every
      175 of its assets, or part of them. */
  lemma RequestsAreFew(assets: seq<Asset>)
    ensures forall part :: part in PartsOf(assets) ==> |part| <= 175
    ensures |PartsOf(assets)| * 175 < 2 * (|assets| + 175)
  {
    ChunksConcatenateBack(assets, CHUNK_SIZE);
    ChunksAreFew(assets, CHUNK_SIZE);
    PartsOfFewChunks(Chunked(assets, CHUNK_SIZE), CHUNK_SIZE);
  }

  predicate IsPart(part: seq<Asset>) {
    part != [] && forall a :: a in part ==> a.HasId() == part[0].HasId()
  }

  lemma PartsOfOneChunkAreParts(chunk: seq<Asset>)
    ensures forall i :: 0 <= i < |PartsOfChunk(chunk)| ==> IsPart(PartsOfChunk(chunk)[i])
  {
    var ids, contracts := WithIds(chunk, true), WithIds(chunk, false);
    WithIdsMeans(chunk, true);
    WithIdsMeans(chunk, false);
    if ids != [] {
      assert ids[0] in ids;
    }
    if contracts != [] {
      assert contracts[0] in contracts;
    }
  }

  lemma {:induction false} PartsAreParts(chunks: seq<seq<Asset>>, i: nat)
    requires i < |PartsOfChunks(chunks)|
    ensures IsPart(PartsOfChunks(chunks)[i])
  {
    var init, last := chunks[..|chunks| - 1], chunks[|chunks| - 1];
    hide PartsOfChunk, IsPart;
    if i < |PartsOfChunks(init)| {
      PartsAreParts(init, i);
    } else {
      PartsOfOneChunkAreParts(last);
    }
  }

  /** The request for a part asks for each of its assets, in order: by its id when it has one,
      at the given platform by its address when it has none. */
  lemma RequestTells(part: seq<Asset>, platformId: string)
    requires IsPart(part) && forall i :: 0 <= i < |part| ==> NoComma(part[i].Key())
    ensures match RequestOf(part, platformId)
            case ByIds(ids, _) =>
              |Split(ids)| == |part| && forall i :: 0 <= i < |part| ==>
                  Some(Split(ids)[i]) == part[i].coingeckoId && Split(ids)[i] != ""
            case ByContracts(platform, addresses) =>
              && platform == platformId && |Split(addresses)| == |part|
              && forall i :: 0 <= i < |part| ==>
                  part[i].coingeckoId in {None, Some("")} && Split(addresses)[i] == part[i].address
  {
    hide NoComma, Join, Split, ExtrasOf;
    var keys := KeysOf(part);
    forall p | p in keys
      ensures NoComma(p)
    {
      var i :| 0 <= i < |keys| && keys[i] == p;
      assert NoComma(part[i].Key());
    }
    SplitJoin(keys);
    forall i | 0 <= i < |part|
      ensures part[i].HasId() == part[0].HasId()
    {
      assert part[i] in part;
    }
  }

  method Partition(chunk: seq<Asset>) returns (ids: seq<Asset>, contracts: seq<Asset>)
    ensures ids == WithIds(chunk, true) && contracts == WithIds(chunk, false)
  {
    ids, contracts := [], [];
    for k := 0 to |chunk|
      invariant ids == WithIds(chunk[..k], true) && contracts == WithIds(chunk[..k], false)
    {
      assert chunk[..k + 1][..k] == chunk[..k];
      if chunk[k].HasId() {
        ids := ids + [chunk[k]];
      } else {
        contracts := contracts + [chunk[k]];
      }
    }
    assert chunk[..|chunk|] == chunk;
  }

  lemma HeadsTell(chunk: seq<Asset>, ids: bool)
    ensures WithIds(chunk, ids) != [] ==> WithIds(chunk, ids)[0].HasId() == ids
  {
    WithIdsMeans(chunk, ids);
    if WithIds(chunk, ids) != [] {
      assert WithIds(chunk, ids)[0] in WithIds(chunk, ids);
    }
  }

  /** One chunk's requests. */
  method ChunkRequests(chunk: seq<Asset>, platformId: string) returns (r: seq<Request>)
    ensures r == RequestsOf(PartsOfChunk(chunk), platformId)
  {
    hide WithIds, Join, KeysOf, ExtrasOf;
    var ids, contracts := Partition(chunk);
    HeadsTell(chunk, true);
    HeadsTell(chunk, false);
    r := [];
    if ids != [] {
      r := r + [ByIds(Join(KeysOf(ids)), ExtrasOf(ids))];
    }
    if contracts != [] {
      r := r + [ByContracts(platformId, Join(KeysOf(contracts)))];
    }
  }

  datatype ChainAssets = ChainAssets(chain: int, assets: seq<Asset>)

  datatype ChainRequests = ChainRequests(chain: int, requests: seq<Request>)

  function RequestsOfChains(chainAssets: seq<ChainAssets>, platformOf: int -> string): (r: seq<ChainRequests>)
    ensures |r| == |chainAssets|
    ensures forall i :: 0 <= i < |r| ==> r[i].chain == chainAssets[i].chain
    ensures forall i :: 0 <= i < |r| ==>
              r[i].requests == RequestsOf(PartsOf(chainAssets[i].assets), platformOf(chainAssets[i].chain))
  {
    seq(|chainAssets|, i requires 0 <= i < |chainAssets| =>
      ChainRequests(chainAssets[i].chain, RequestsOf(PartsOf(chainAssets[i].assets), platformOf(chainAssets[i].chain))))
  }

  method BuildCoingeckoRequestsMap(chainAssets: seq<ChainAssets>, platformOf: int -> string)
    returns (r: seq<ChainRequests>)
    ensures r == RequestsOfChains(chainAssets, platformOf)
  {
    hide PartsOf, RequestsOf;
    r := [];
    for k := 0 to |chainAssets|
      invariant r == RequestsOfChains(chainAssets[..k], platformOf)
    {
      var requests := AssetRequests(chainAssets[k].assets, platformOf(chainAssets[k].chain));
      r := r + [ChainRequests(chainAssets[k].chain, requests)];
    }
    assert chainAssets[..|chainAssets|] == chainAssets;
  }

  method AssetRequests(assets: seq<Asset>, platformId: string) returns (requests: seq<Request>)
    ensures requests == RequestsOf(PartsOf(assets), platformId)
  {
    hide PartsOfChunk, RequestOf;
    var chunks := ToChunkedArray(assets, CHUNK_SIZE);
    requests := [];
    for j := 0 to |chunks|
      invariant requests == RequestsOf(PartsOfChunks(chunks[..j]), platformId)
    {
      assert chunks[..j + 1][..j] == chunks[..j];
      var more := ChunkRequests(chunks[j], platformId);
      requests := requests + more;
    }
    assert chunks[..|chunks|] == chunks;
  }
}
