/** A batch of contract calls sent once each and handed back under the caller's labels. */
module Multicall {
  import opened Wrappers

  /** Encoding of a call from its ABI entry and arguments, and decoding of its raw result by
      the same entry; `None` throws. */
  datatype Abi = Abi(encode: (string, seq<string>) -> Option<string>, decode: (string, string) -> Option<string>)

  /** What one call is sent as. */
  datatype Call = Call(address: string, plain: string)

  datatype Error = BadArguments | AggregateFailed | BadOutput

  class CallData {
    const address: string
    const abi: string
    const data: seq<string>
    var inputPlain: string
    var outputPlain: string
    var outputData: Option<string>

    constructor (address: string, abi: string, data: seq<string>)
      ensures this.address == address && this.abi == abi && this.data == data && outputData.None?
    {
      this.address, this.abi, this.data := address, abi, data;
      inputPlain, outputPlain, outputData := "", "", None;
    }
  }

  /** An entry of the caller's map; no two entries have the same key. */
  datatype Entry = Entry(key: string, call: CallData)

  /** Joins with an underscore. */
  function ConcatStrings(a: string, b: string): string {
    a + "_" + b
  }

  function IdOf(c: Call): string {
    ConcatStrings(c.address, c.plain)
  }

  /** Neither address goes on from the other with an underscore. */
  predicate Apart(a: string, b: string) {
    a == b || (!(a + "_" <= b) && !(b + "_" <= a))
  }

  predicate Collide(c: Call, d: Call) {
    c != d && IdOf(c) == IdOf(d)
  }

  lemma LongerExtends(c: Call, d: Call)
    requires IdOf(c) == IdOf(d) && |c.address| < |d.address|
    ensures c.address + "_" <= d.address
  {
    var n := |c.address|;
    assert IdOf(c)[..n + 1] == c.address + "_";
    assert IdOf(d)[..n + 1] == d.address[..n + 1];
  }

  /** The joined id tells calls at such addresses apart. */
  lemma IdsAreInjective(c: Call, d: Call)
    requires Apart(c.address, d.address) && IdOf(c) == IdOf(d)
    ensures c == d
  {
    var n := |c.address|;
    if n < |d.address| {
      LongerExtends(c, d);
    } else if |d.address| < n {
      LongerExtends(d, c);
    }
    assert IdOf(c)[..n] == c.address && IdOf(d)[..n] == d.address;
    assert IdOf(c)[n + 1..] == c.plain && IdOf(d)[n + 1..] == d.plain;
  }

  lemma ExtensionCollides(a: string, b: string)
    requires a + "_" <= b
    ensures exists p, q :: Collide(Call(a, p), Call(b, q))
  {
    var rest := b[|a| + 1..];
    assert b == a + "_" + rest;
    assert IdOf(Call(a, rest + "_")) == IdOf(Call(b, ""));
    assert Collide(Call(a, rest + "_"), Call(b, ""));
  }

  /** Two different calls at these addresses can share an id, and one of them be dropped, if
      and only if one address goes on from the other with an underscore. */
  lemma CallsCollideIff(a: string, b: string)
    ensures (exists p, q :: Collide(Call(a, p), Call(b, q))) <==> !Apart(a, b)
  {
    if p, q :| Collide(Call(a, p), Call(b, q)) {
      if Apart(a, b) {
        IdsAreInjective(Call(a, p), Call(b, q));
      }
    }
    if a + "_" <= b {
      ExtensionCollides(a, b);
    }
    if b + "_" <= a {
      ExtensionCollides(b, a);
      var p, q :| Collide(Call(b, p), Call(a, q));
      assert Collide(Call(a, q), Call(b, p));
    }
    if a == b {
      assert |a + "_"| > |b|;
    }
  }

  /** The object is sent as `c`: to its own address, its own arguments encoded by its own entry. */
  predicate SentAs(abi: Abi, o: CallData, c: Call) {
    c.address == o.address && abi.encode(o.abi, o.data) == Some(c.plain)
  }

  function CallOf(abi: Abi, c: CallData): (r: Option<Call>)
    ensures r.None? ==> abi.encode(c.abi, c.data).None?
    ensures forall call :: r == Some(call) <==> SentAs(abi, c, call)
  {
    match abi.encode(c.abi, c.data)
    case None => None
    case Some(plain) => Some(Call(c.address, plain))
  }

  /** The distinct calls, in the order of their first entry. */
  function Distinct(abi: Abi, calls: seq<Entry>): seq<Call> {
    if calls == [] then []
    else
      var before := Distinct(abi, calls[..|calls| - 1]);
      match CallOf(abi, calls[|calls| - 1].call)
      case None => before
      case Some(c) => if c in before then before else before + [c]
  }

  ghost predicate AllEncodable(abi: Abi, calls: seq<Entry>) {
    forall i :: 0 <= i < |calls| ==> abi.encode(calls[i].call.abi, calls[i].call.data).Some?
  }

  ghost predicate ApartAddresses(calls: seq<Entry>) {
    forall i, j :: 0 <= i < |calls| && 0 <= j < |calls| ==> Apart(calls[i].call.address, calls[j].call.address)
  }

  ghost predicate ApartFrom(calls: seq<Entry>, address: string) {
    forall i :: 0 <= i < |calls| ==> Apart(calls[i].call.address, address)
  }

  /** Each distinct call is sent once. */
  lemma {:induction false} DistinctIsDistinct(abi: Abi, calls: seq<Entry>)
    ensures forall i, j :: 0 <= i < j < |Distinct(abi, calls)| ==> Distinct(abi, calls)[i] != Distinct(abi, calls)[j]
    ensures forall c :: c in Distinct(abi, calls) <==>
              exists i :: 0 <= i < |calls| && SentAs(abi, calls[i].call, c)
  {
    hide CallOf, SentAs;
    if calls != [] {
      DistinctIsDistinct(abi, calls[..|calls| - 1]);
      assert forall i :: 0 <= i < |calls| - 1 ==> calls[..|calls| - 1][i] == calls[i];
    }
  }

  function Objects(calls: seq<Entry>): set<CallData> {
    set i | 0 <= i < |calls| :: calls[i].call
  }

  ghost predicate DistinctKeys(calls: seq<Entry>) {
    forall i, j :: 0 <= i < j < |calls| ==> calls[i].key != calls[j].key
  }

  /** The maps after some entries: `order` holds the ids in insertion order (an id set again
      keeps its place), `objects` the last object of each id, `ids` the id of each key. */
  datatype Maps = Maps(order: seq<string>, objects: map<string, CallData>, ids: map<string, string>)

  /** The last entry that is sent as `c`, or -1. */
  function LastIndex(abi: Abi, calls: seq<Entry>, c: Call): (r: int)
    ensures -1 <= r < |calls|
    ensures r >= 0 ==> CallOf(abi, calls[r].call) == Some(c)
    ensures forall j :: r < j < |calls| ==> !SentAs(abi, calls[j].call, c)
  {
    if calls == [] then -1
    else if CallOf(abi, calls[|calls| - 1].call) == Some(c) then |calls| - 1
    else LastIndex(abi, calls[..|calls| - 1], c)
  }

  predicate IsLastObject(abi: Abi, calls: seq<Entry>, c: Call, o: CallData) {
    LastIndex(abi, calls, c) >= 0 && o == calls[LastIndex(abi, calls, c)].call
  }

  /** The distinct calls are listed by their ids, each standing for the object of its last
      entry. */
  ghost predicate Indexed(abi: Abi, calls: seq<Entry>, m: Maps) {
    var sent := Distinct(abi, calls);
    && |m.order| == |sent|
    && (forall i :: 0 <= i < |sent| ==> IndexedAs(abi, calls, m, m.order[i], sent[i]))
  }

  ghost predicate IndexedAs(abi: Abi, calls: seq<Entry>, m: Maps, id: string, c: Call) {
    && id == IdOf(c) && id in m.objects
    && m.objects[id] in Objects(calls) && CallOf(abi, m.objects[id]) == Some(c)
      && IsLastObject(abi, calls, c, m.objects[id])
  }

  ghost predicate Labelled(abi: Abi, calls: seq<Entry>, m: Maps) {
    && (forall i :: 0 <= i < |calls| ==> LabelledAs(abi, calls[i], m))
    && (forall key :: key in m.ids ==> exists i :: 0 <= i < |calls| && calls[i].key == key)
  }

  ghost predicate LabelledAs(abi: Abi, e: Entry, m: Maps) {
    && CallOf(abi, e.call).Some? && e.key in m.ids
    && m.ids[e.key] == IdOf(CallOf(abi, e.call).value) && m.ids[e.key] in m.order
  }

  /** Whether the id is already there says whether the call is. */
  lemma IdSeenIffCallSeen(abi: Abi, calls: seq<Entry>, m: Maps, c: Call)
    requires ApartFrom(calls, c.address) && Indexed(abi, calls, m)
    ensures IdOf(c) in m.order <==> c in Distinct(abi, calls)
    ensures forall i :: 0 <= i < |m.order| && m.order[i] == IdOf(c) ==> Distinct(abi, calls)[i] == c
  {
    var sent := Distinct(abi, calls);
    forall i | 0 <= i < |sent| && m.order[i] == IdOf(c)
      ensures sent[i] == c
    {
      var o := m.objects[m.order[i]];
      var j :| 0 <= j < |calls| && calls[j].call == o;
      assert Apart(calls[j].call.address, c.address) && sent[i].address == o.address;
      IdsAreInjective(sent[i], c);
    }
    if c in sent {
      var i :| 0 <= i < |sent| && sent[i] == c;
      assert m.order[i] == IdOf(c);
    }
  }

  function SetCall(m: Maps, key: string, id: string, c: CallData): Maps {
    Maps(if id in m.order then m.order else m.order + [id], m.objects[id := c], m.ids[key := id])
  }

  lemma LastIsApart(calls: seq<Entry>, e: Entry)
    requires ApartAddresses(calls + [e])
    ensures ApartFrom(calls, e.call.address)
  {
    hide Apart;
    var all := calls + [e];
    assert all[|calls|] == e;
    assert forall i :: 0 <= i < |calls| ==> all[i] == calls[i];
  }

  lemma EachIsApart(calls: seq<Entry>, j: nat)
    requires ApartAddresses(calls) && j < |calls|
    ensures ApartFrom(calls, calls[j].call.address)
  {
    hide Apart;
  }

  lemma SetKeepsIndexed(abi: Abi, calls: seq<Entry>, m: Maps, e: Entry, c: Call)
    requires ApartAddresses(calls + [e]) && Indexed(abi, calls, m) && CallOf(abi, e.call) == Some(c)
    ensures Indexed(abi, calls + [e], SetCall(m, e.key, IdOf(c), e.call))
  {
    var all := calls + [e];
    assert all[..|all| - 1] == calls && all[|calls|] == e;
    assert forall i :: 0 <= i < |calls| ==> all[i] == calls[i];
    assert ApartFrom(calls, e.call.address) by { LastIsApart(calls, e); }
    IdSeenIffCallSeen(abi, calls, m, c);
    var sent, r := Distinct(abi, all), SetCall(m, e.key, IdOf(c), e.call);
    hide Apart, Distinct;
    assert Objects(calls) <= Objects(all) && e.call in Objects(all);
    hide CallOf, Objects;
    forall i | 0 <= i < |sent|
      ensures IndexedAs(abi, all, r, r.order[i], sent[i])
    {
      if i < |m.order| {
        assert IndexedAs(abi, calls, m, m.order[i], Distinct(abi, calls)[i]);
      }
    }
  }

  lemma SetKeepsLabelled(abi: Abi, calls: seq<Entry>, m: Maps, e: Entry, c: Call)
    requires Labelled(abi, calls, m) && CallOf(abi, e.call) == Some(c) && DistinctKeys(calls + [e])
    ensures Labelled(abi, calls + [e], SetCall(m, e.key, IdOf(c), e.call))
  {
    var all := calls + [e];
    var r := SetCall(m, e.key, IdOf(c), e.call);
    hide CallOf;
    forall i | 0 <= i < |all|
      ensures LabelledAs(abi, all[i], r)
    {
      if i < |calls| {
        assert LabelledAs(abi, calls[i], m);
        assert all[i] == calls[i] && all[|calls|] == e;
      }
    }
    forall key | key in r.ids
      ensures exists i :: 0 <= i < |all| && all[i].key == key
    {
      if key == e.key {
        assert all[|calls|].key == key;
      } else {
        var i :| 0 <= i < |calls| && calls[i].key == key;
        assert all[i].key == key;
      }
    }
  }

  /** Encodes every call and drops repeated ones. */
  method IndexCalls(abi: Abi, calls: seq<Entry>) returns (r: Option<Maps>)
    requires ApartAddresses(calls) && DistinctKeys(calls)
    modifies Objects(calls)`inputPlain
    ensures r.Some? <==> AllEncodable(abi, calls)
    ensures r.Some? ==> Indexed(abi, calls, r.value) && Labelled(abi, calls, r.value)
    ensures r.Some? ==> forall c :: c in Objects(calls) ==> CallOf(abi, c) == Some(Call(c.address, c.inputPlain))
  {
    hide Indexed, Labelled, CallOf, IdOf, ApartAddresses, DistinctKeys;
    var m := Maps([], map[], map[]);
    assert Indexed(abi, calls[..0], m) && Labelled(abi, calls[..0], m) by { NothingIndexed(abi); }
    for k := 0 to |calls|
      invariant AllEncodable(abi, calls[..k])
      invariant Indexed(abi, calls[..k], m) && Labelled(abi, calls[..k], m)
      invariant forall j :: 0 <= j < k ==>
                  CallOf(abi, calls[j].call) == Some(Call(calls[j].call.address, calls[j].call.inputPlain))
    {
      var c := calls[k].call;
      var plain := EncodeCall(abi, c);
      if plain.None? {
        return None;
      }
      c.inputPlain := plain.value;
      var id := ConcatStrings(c.address, plain.value);
      assert id == IdOf(Call(c.address, plain.value)) by { IdIsJoined(Call(c.address, plain.value)); }
      assert calls[..k + 1] == calls[..k] + [calls[k]];
      PrefixIsFine(calls, k + 1);
      SetKeepsIndexed(abi, calls[..k], m, calls[k], Call(c.address, plain.value));
      SetKeepsLabelled(abi, calls[..k], m, calls[k], Call(c.address, plain.value));
      m := SetCall(m, calls[k].key, id, c);
    }
    assert calls[..|calls|] == calls;
    r := Some(m);
  }

  method EncodeCall(abi: Abi, c: CallData) returns (plain: Option<string>)
    ensures plain.Some? <==> CallOf(abi, c).Some?
    ensures plain.Some? ==> CallOf(abi, c) == Some(Call(c.address, plain.value))
  {
    plain := abi.encode(c.abi, c.data);
  }

  lemma IdIsJoined(c: Call)
    ensures IdOf(c) == ConcatStrings(c.address, c.plain)
  {
  }

  lemma NothingIndexed(abi: Abi)
    ensures Indexed(abi, [], Maps([], map[], map[])) && Labelled(abi, [], Maps([], map[], map[]))
  {
  }

  lemma PrefixIsFine(calls: seq<Entry>, k: nat)
    requires ApartAddresses(calls) && DistinctKeys(calls) && k <= |calls|
    ensures ApartAddresses(calls[..k]) && DistinctKeys(calls[..k])
  {
    hide Apart;
  }

  // ---------------------------------------------------------------------------------------
  // Executing the batch
  // ---------------------------------------------------------------------------------------

  function RunAll(run: Call -> string, calls: seq<Call>): (r: seq<string>)
    ensures |r| == |calls| && forall i :: 0 <= i < |r| ==> r[i] == run(calls[i])
  {
    seq(|calls|, i requires 0 <= i < |calls| => run(calls[i]))
  }

  /** The multicall contract: deterministic, one answer a call, in order; or it throws. */
  ghost predicate Faithful(aggregate: seq<Call> -> Option<seq<string>>, run: Call -> string) {
    forall calls :: aggregate(calls).Some? ==> aggregate(calls).value == RunAll(run, calls)
  }

  /** Entries sent as the same call decode its result alike. */
  ghost predicate OutputsDetermined(abi: Abi, calls: seq<Entry>) {
    forall i, j, plain | 0 <= i < |calls| && 0 <= j < |calls| ::
      CallOf(abi, calls[i].call) == CallOf(abi, calls[j].call) ==>
        abi.decode(calls[i].call.abi, plain) == abi.decode(calls[j].call.abi, plain)
  }

  /** The object holds the raw and the decoded result of running its own call. */
  ghost predicate Answered(abi: Abi, run: Call -> string, o: CallData, c: Call)
    reads o
  {
    o.outputPlain == run(c) && o.outputData.Some? && o.outputData == abi.decode(o.abi, run(c))
  }

  ghost predicate Decodable(abi: Abi, run: Call -> string, m: Maps, sent: seq<Call>)
    requires |m.order| == |sent|
  {
    forall i :: 0 <= i < |sent| ==> m.order[i] in m.objects && abi.decode(m.objects[m.order[i]].abi, run(sent[i])).Some?
  }

  method ListCalls(abi: Abi, calls: seq<Entry>, m: Maps) returns (callsToBeExecuted: seq<Call>)
    requires Indexed(abi, calls, m)
    requires forall c :: c in Objects(calls) ==> CallOf(abi, c) == Some(Call(c.address, c.inputPlain))
    ensures callsToBeExecuted == Distinct(abi, calls)
  {
    hide CallOf, Distinct, Objects, IdOf;
    callsToBeExecuted := [];
    for i := 0 to |m.order|
      invariant callsToBeExecuted == Distinct(abi, calls)[..i]
    {
      var o := m.objects[m.order[i]];
      callsToBeExecuted := callsToBeExecuted + [Call(o.address, o.inputPlain)];
    }
  }

  lemma IndexedObjectsDiffer(abi: Abi, calls: seq<Entry>, m: Maps, i: nat, j: nat)
    requires Indexed(abi, calls, m) && i < j < |m.order|
    ensures m.order[i] in m.objects && m.order[j] in m.objects && m.objects[m.order[i]] != m.objects[m.order[j]]
  {
    DistinctIsDistinct(abi, calls);
  }

  /** Writes every answer into the object that stands for its call. */
  method WriteOutputs(abi: Abi, calls: seq<Entry>, m: Maps, ghost run: Call -> string, returnData: seq<string>)
    returns (ok: bool)
    requires Indexed(abi, calls, m) && returnData == RunAll(run, Distinct(abi, calls))
    modifies Objects(calls)`outputPlain, Objects(calls)`outputData
    ensures ok <==> Decodable(abi, run, m, Distinct(abi, calls))
    ensures ok ==> forall i :: 0 <= i < |m.order| ==> Answered(abi, run, m.objects[m.order[i]], Distinct(abi, calls)[i])
  {
    hide CallOf, Distinct, Objects, IdOf;
    ghost var sent := Distinct(abi, calls);
    for i := 0 to |m.order|
      invariant forall j :: 0 <= j < i ==> Answered(abi, run, m.objects[m.order[j]], sent[j])
    {
      var o := m.objects[m.order[i]];
      forall j | 0 <= j < i
        ensures m.objects[m.order[j]] != o
      {
        IndexedObjectsDiffer(abi, calls, m, j, i);
      }
      o.outputPlain := returnData[i];
      var outputResult := abi.decode(o.abi, returnData[i]);
      if outputResult.None? {
        return false;
      }
      o.outputData := outputResult;
    }
    ok := true;
  }

  ghost predicate OwnAnswer(abi: Abi, run: Call -> string, e: Entry, o: CallData)
    reads o
  {
    exists c :: SentAs(abi, e.call, c) && SentAs(abi, o, c) && Answered(abi, run, o, c)
  }

  /** The object is the one of the last entry sent as the same call. */
  predicate StandsFor(abi: Abi, calls: seq<Entry>, e: Entry, o: CallData) {
    CallOf(abi, e.call).Some? && IsLastObject(abi, calls, CallOf(abi, e.call).value, o)
  }

  /** Hands every key the object that stands for its call. */
  method Respond(abi: Abi, calls: seq<Entry>, m: Maps, ghost run: Call -> string)
    returns (response: map<string, CallData>)
    requires Indexed(abi, calls, m) && Labelled(abi, calls, m) && ApartAddresses(calls) && DistinctKeys(calls)
    requires forall i :: 0 <= i < |m.order| ==> Answered(abi, run, m.objects[m.order[i]], Distinct(abi, calls)[i])
    ensures forall key :: key in response <==> exists i :: 0 <= i < |calls| && calls[i].key == key
    ensures forall i :: 0 <= i < |calls| ==>
              OwnAnswer(abi, run, calls[i], response[calls[i].key]) && response[calls[i].key] in Objects(calls)
    ensures forall i :: 0 <= i < |calls| ==> StandsFor(abi, calls, calls[i], response[calls[i].key])
  {
    hide CallOf, Distinct, Objects, IdOf, Labelled, DistinctKeys, ApartAddresses, OwnAnswer, Answered, StandsFor,
         IsLastObject;
    response := map[];
    for k := 0 to |calls|
      invariant forall key :: key in response <==> exists i :: 0 <= i < k && calls[i].key == key
      invariant forall i :: 0 <= i < k ==> calls[i].key in response
      invariant forall i :: 0 <= i < k ==> OwnAnswer(abi, run, calls[i], response[calls[i].key])
      invariant forall i :: 0 <= i < k ==> response[calls[i].key] in Objects(calls)
      invariant forall i :: 0 <= i < k ==> StandsFor(abi, calls, calls[i], response[calls[i].key])
    {
      ObjectOfEntry(abi, calls, m, run, k);
      KeyIsNew(calls, k);
      response := response[calls[k].key := m.objects[m.ids[calls[k].key]]];
    }
  }

  lemma KeyIsNew(calls: seq<Entry>, k: nat)
    requires DistinctKeys(calls) && k < |calls|
    ensures forall i :: 0 <= i < k ==> calls[i].key != calls[k].key
  {
  }

  lemma ObjectOfEntry(abi: Abi, calls: seq<Entry>, m: Maps, run: Call -> string, k: nat)
    requires Indexed(abi, calls, m) && Labelled(abi, calls, m) && ApartAddresses(calls) && k < |calls|
    requires forall i :: 0 <= i < |m.order| ==> Answered(abi, run, m.objects[m.order[i]], Distinct(abi, calls)[i])
    ensures calls[k].key in m.ids && m.ids[calls[k].key] in m.objects
    ensures StandsFor(abi, calls, calls[k], m.objects[m.ids[calls[k].key]])
    ensures OwnAnswer(abi, run, calls[k], m.objects[m.ids[calls[k].key]])
            && m.objects[m.ids[calls[k].key]] in Objects(calls)
  {
    assert LabelledAs(abi, calls[k], m);
    hide CallOf, Distinct, Objects, IdOf, Answered;
    var i := FindId(abi, calls, m, calls[k]);
    assert Answered(abi, run, m.objects[m.order[i]], Distinct(abi, calls)[i]);
  }

  lemma FindId(abi: Abi, calls: seq<Entry>, m: Maps, e: Entry) returns (i: nat)
    requires Indexed(abi, calls, m) && LabelledAs(abi, e, m) && ApartAddresses(calls) && e in calls
    ensures i < |m.order| && m.order[i] == m.ids[e.key] && Some(Distinct(abi, calls)[i]) == CallOf(abi, e.call)
  {
    i :| 0 <= i < |m.order| && m.order[i] == m.ids[e.key];
    var j :| 0 <= j < |calls| && calls[j] == e;
    assert ApartFrom(calls, calls[j].call.address) by { EachIsApart(calls, j); }
    IdSeenIffCallSeen(abi, calls, m, CallOf(abi, e.call).value);
  }

  /** Every entry could decode the result of its own call. */
  ghost predicate AllDecode(abi: Abi, run: Call -> string, calls: seq<Entry>) {
    forall i :: 0 <= i < |calls| ==>
        CallOf(abi, calls[i].call).Some? && abi.decode(calls[i].call.abi, run(CallOf(abi, calls[i].call).value)).Some?
  }

  lemma AllDecodeIsDecodable(abi: Abi, run: Call -> string, calls: seq<Entry>, m: Maps)
    requires Indexed(abi, calls, m) && AllDecode(abi, run, calls)
    ensures Decodable(abi, run, m, Distinct(abi, calls))
  {
    var sent := Distinct(abi, calls);
    forall i | 0 <= i < |sent|
      ensures m.order[i] in m.objects && abi.decode(m.objects[m.order[i]].abi, run(sent[i])).Some?
    {
      var o := m.objects[m.order[i]];
      var j :| 0 <= j < |calls| && calls[j].call == o;
    }
  }

  /** The whole batch. Each distinct call is sent once, in the order of its first entry, and
      every key gets back an object of its own call holding the result of running that call.
      A key whose call was repeated may get the object of a later entry, so the decoded
      output is surely its own only when entries sent alike decode alike. */
  method HandleInBatches(abi: Abi, calls: seq<Entry>, aggregate: seq<Call> -> Option<seq<string>>,
                         ghost run: Call -> string)
    returns (r: Result<map<string, CallData>, Error>, sent: seq<Call>)
    requires ApartAddresses(calls) && DistinctKeys(calls) && Faithful(aggregate, run)
    modifies Objects(calls)
    ensures sent == if AllEncodable(abi, calls) then Distinct(abi, calls) else []
    ensures r.Ok? ==>
              && (forall i, j :: 0 <= i < j < |sent| ==> sent[i] != sent[j])
              && (forall c :: c in sent <==> exists i :: 0 <= i < |calls| && SentAs(abi, calls[i].call, c))
    ensures r.Ok? ==>
              && (forall key :: key in r.value <==> exists i :: 0 <= i < |calls| && calls[i].key == key)
              && (forall i :: 0 <= i < |calls| ==> OwnAnswer(abi, run, calls[i], r.value[calls[i].key]))
              && (forall i :: 0 <= i < |calls| ==> StandsFor(abi, calls, calls[i], r.value[calls[i].key]))
    ensures r.Ok? && OutputsDetermined(abi, calls) ==>
              forall i :: 0 <= i < |calls| ==> OwnOutput(abi, run, calls[i], r.value[calls[i].key])
    ensures r.Ok? ==> AllEncodable(abi, calls) && aggregate(sent).Some?
    ensures AllEncodable(abi, calls) && aggregate(sent).Some? && AllDecode(abi, run, calls) ==> r.Ok?
  {
    sent := [];
    hide CallOf, Distinct, IdOf, Apart, Indexed, Labelled, DistinctKeys, ApartAddresses, OutputsDetermined, OwnOutput,
         OwnAnswer,
         AllDecode, Decodable, StandsFor;
    DistinctIsDistinct(abi, calls);
    var indexed := IndexCalls(abi, calls);
    if indexed.None? {
      return Err(BadArguments), [];
    }
    sent := ListCalls(abi, calls, indexed.value);
    var returnData := aggregate(sent);
    if returnData.None? {
      return Err(AggregateFailed), sent;
    }
    if AllDecode(abi, run, calls) {
      AllDecodeIsDecodable(abi, run, calls, indexed.value);
    }
    var written := WriteOutputs(abi, calls, indexed.value, run, returnData.value);
    if !written {
      return Err(BadOutput), sent;
    }
    var response := Respond(abi, calls, indexed.value, run);
    if OutputsDetermined(abi, calls) {
      forall i | 0 <= i < |calls|
        ensures OwnOutput(abi, run, calls[i], response[calls[i].key])
      {
        DeterminedOutput(abi, calls, run, i, response[calls[i].key]);
      }
    }
    r := Ok(response);
  }

  /** The decoded output is what the entry alone would decode from running its own call. */
  ghost predicate OwnOutput(abi: Abi, run: Call -> string, e: Entry, o: CallData)
    reads o
  {
    exists c :: SentAs(abi, e.call, c) && o.outputData == abi.decode(e.call.abi, run(c))
  }

  lemma DeterminedOutput(abi: Abi, calls: seq<Entry>, run: Call -> string, i: nat, o: CallData)
    requires OutputsDetermined(abi, calls) && i < |calls| && o in Objects(calls) && OwnAnswer(abi, run, calls[i], o)
    ensures OwnOutput(abi, run, calls[i], o)
  {
    var j :| 0 <= j < |calls| && calls[j].call == o;
  }

  /** The call can be encoded, the batch of it does not throw, and its result decodes. */
  ghost predicate Succeeds(abi: Abi, call: CallData, aggregate: seq<Call> -> Option<seq<string>>, run: Call -> string) {
    exists c :: SentAs(abi, call, c) && aggregate([c]).Some? && abi.decode(call.abi, run(c)).Some?
  }

  lemma OneObject(e: Entry)
    ensures Objects([e]) == {e.call}
  {
    var calls := [e];
    assert calls[0].call == e.call && calls[0].call in Objects(calls);
    forall c | c in Objects(calls)
      ensures c == e.call
    {
      var i :| 0 <= i < |calls| && calls[i].call == c;
    }
  }

  lemma OneIsDetermined(abi: Abi, calls: seq<Entry>)
    requires |calls| == 1
    ensures OutputsDetermined(abi, calls)
  {
  }

  /** A single call is a batch of one. */
  method CallOne(abi: Abi, call: CallData, aggregate: seq<Call> -> Option<seq<string>>, ghost run: Call -> string)
    returns (r: Result<string, Error>)
    requires Faithful(aggregate, run)
    modifies call
    ensures r.Ok? <==> Succeeds(abi, call, aggregate, run)
    ensures r.Ok? ==> exists c :: SentAs(abi, call, c) && Some(r.value) == abi.decode(call.abi, run(c))
  {
    var calls := [Entry("single-call", call)];
    assert Objects(calls) == {call} by { OneObject(calls[0]); }
    assert calls[..0] == [];
    if CallOf(abi, call).Some? {
      assert Distinct(abi, calls) == [CallOf(abi, call).value];
      assert AllDecode(abi, run, calls) <==> abi.decode(call.abi, run(CallOf(abi, call).value)).Some?;
    }
    hide Distinct, Apart, OutputsDetermined;
    var results, sent := HandleInBatches(abi, calls, aggregate, run);
    if results.Err? {
      return Err(results.error);
    }
    assert OutputsDetermined(abi, calls) by { OneIsDetermined(abi, calls); }
    assert calls[0].key == "single-call";
    assert OwnAnswer(abi, run, calls[0], results.value[calls[0].key]);
    assert OwnOutput(abi, run, calls[0], results.value[calls[0].key]);
    r := Ok(results.value["single-call"].outputData.value);
  }
}
