/** The events consumer: from a queue message to table rows, one delivery at a time. */
module EventConsumer {
  import opened ChainData
  import opened EventTables
  import opened Wrappers

  const ERC20_TRANSFER_EVENT_HASH: string := "0xddf252ad1be2c89b69c2b068fc378daa952ba7f163c4a11628f55a4df523b3ef"
  const ERC20_APPROVAL_EVENT_HASH: string := "0x8c5be1e5ebec7d5bd14f71427d1e84f3dd0314c0f7b2291e5b200ac8c7c3b925"
  const ZERO_DATA: string := "0x"
  const ETH_ADDRESS: string := "0x0000000000000000000000000000000000000000"

  /** ABI decoding and lower-casing, deterministic; `None` is a decoding error that throws.
      Decoded addresses come out lower-cased. */
  datatype Codec = Codec(address: string -> Option<string>, uint256: string -> Option<string>, lower: string -> string)

  datatype ParseError = TemplateNotFound | Undecodable

  datatype Entity =
    | Skipped
    | TransferEntity(transfer: Transfer)
    | ApprovalEntity(approval: Approval)

  predicate Present(topic: Option<string>) {
    topic.Some? && topic.value != ""
  }

  predicate CanBeConverted(event: MigrationEvent) {
    Present(event.topic2) && Present(event.topic3) && event.data != ZERO_DATA
  }

  /** The entity of an event; its asset id is filled in before it is saved. */
  function ToEntity(codec: Codec, event: MigrationEvent): Result<Entity, ParseError> {
    if event.topic1 == ERC20_TRANSFER_EVENT_HASH then FromERC20Transfer(codec, event)
    else if event.topic1 == ERC20_APPROVAL_EVENT_HASH then FromERC20Approval(codec, event)
    else Err(TemplateNotFound)
  }

  function FromERC20Transfer(codec: Codec, event: MigrationEvent): Result<Entity, ParseError> {
    if !CanBeConverted(event) then Ok(Skipped)
    else
      match (codec.address(event.topic2.value), codec.address(event.topic3.value), codec.uint256(event.data))
      case (Some(from), Some(to), Some(value)) =>
        Ok(TransferEntity(Transfer(0, from, to, value, event.blockTimestamp, event.transactionHash,
                                   event.blockNumber, event.logIndex)))
      case _ => Err(Undecodable)
  }

  function FromERC20Approval(codec: Codec, event: MigrationEvent): Result<Entity, ParseError> {
    if !CanBeConverted(event) then Ok(Skipped)
    else
      match (codec.address(event.topic2.value), codec.address(event.topic3.value))
      case (Some(user), Some(spender)) =>
        Ok(ApprovalEntity(Approval(user, codec.lower(event.address), spender, event.data, event.blockNumber,
                                   event.blockTimestamp, event.transactionHash, 0)))
      case _ => Err(Undecodable)
  }

  datatype AssetKey = AssetKey(address: string, chainId: int)

  function AssetOf(codec: Codec, event: MigrationEvent): AssetKey {
    AssetKey(codec.lower(event.address), event.chainId)
  }

  // ---------------------------------------------------------------------------------------
  // What an event says, and what its row must say
  // ---------------------------------------------------------------------------------------

  /** An event of one of the two templates that lacks an address topic or its data. */
  predicate IsSkipped(e: MigrationEvent) {
    && (e.topic1 == ERC20_TRANSFER_EVENT_HASH || e.topic1 == ERC20_APPROVAL_EVENT_HASH)
    && (e.topic2.None? || e.topic2.value == "" || e.topic3.None? || e.topic3.value == "" || e.data == "0x")
  }

  predicate DescribesTransfer(codec: Codec, e: MigrationEvent) {
    && e.topic1 == ERC20_TRANSFER_EVENT_HASH && !IsSkipped(e)
    && codec.address(e.topic2.value).Some? && codec.address(e.topic3.value).Some? && codec.uint256(e.data).Some?
  }

  predicate DescribesApproval(codec: Codec, e: MigrationEvent) {
    && e.topic1 == ERC20_APPROVAL_EVENT_HASH && !IsSkipped(e)
    && codec.address(e.topic2.value).Some? && codec.address(e.topic3.value).Some?
  }

  /** The asset row of an event: its lower-cased address on its chain. */
  function Asset(codec: Codec, e: MigrationEvent): AssetKey {
    AssetKey(codec.lower(e.address), e.chainId)
  }

  predicate CanBeParsed(codec: Codec, e: MigrationEvent) {
    IsSkipped(e) || DescribesTransfer(codec, e) || DescribesApproval(codec, e)
  }

  /** The row is the event's transfer: sender in the second topic, receiver in the third. */
  predicate TransferTells(codec: Codec, e: MigrationEvent, row: Transfer)
    requires DescribesTransfer(codec, e)
  {
    && Some(row.from) == codec.address(e.topic2.value) && Some(row.to) == codec.address(e.topic3.value)
    && Some(row.value) == codec.uint256(e.data) && row.timestamp == e.blockTimestamp
    && row.txHash == e.transactionHash && row.blockNumber == e.blockNumber && row.logIndex == e.logIndex
  }

  /** The key is the event's: owner in the second topic, spender in the third. */
  predicate KeyTells(codec: Codec, e: MigrationEvent, key: ApprovalKey)
    requires DescribesApproval(codec, e)
  {
    && Some(key.userAddress) == codec.address(e.topic2.value)
    && Some(key.contractAddress) == codec.address(e.topic3.value)
    && key.tokenAddress == codec.lower(e.address)
  }

  predicate ApprovalTells(codec: Codec, e: MigrationEvent, row: Approval)
    requires DescribesApproval(codec, e)
  {
    KeyTells(codec, e, row.Key()) && DataTells(e, row)
  }

  predicate DataTells(e: MigrationEvent, row: Approval) {
    && row.amount == e.data && row.blockNumber == e.blockNumber && row.blockTimestamp == e.blockTimestamp
    && row.hash == e.transactionHash
  }

  /** Parsing finds exactly that, and fails on everything else. */
  lemma EntityMeans(codec: Codec, e: MigrationEvent)
    ensures ToEntity(codec, e).Ok? <==> CanBeParsed(codec, e)
    ensures ToEntity(codec, e) == Ok(Skipped) <==> IsSkipped(e)
    ensures DescribesTransfer(codec, e) <==> ToEntity(codec, e).Ok? && ToEntity(codec, e).value.TransferEntity?
    ensures DescribesApproval(codec, e) <==> ToEntity(codec, e).Ok? && ToEntity(codec, e).value.ApprovalEntity?
    ensures DescribesTransfer(codec, e) ==> TransferTells(codec, e, ToEntity(codec, e).value.transfer)
    ensures DescribesApproval(codec, e) ==> ApprovalTells(codec, e, ToEntity(codec, e).value.approval)
    ensures AssetOf(codec, e) == Asset(codec, e)
  {
  }

  /** The asset is announced for the receiver, or for the sender when there is no receiver. */
  predicate AnnouncementTells(codec: Codec, e: MigrationEvent, a: Announcement)
    requires DescribesTransfer(codec, e)
  {
    var to := codec.address(e.topic3.value).value;
    && a.key == Asset(codec, e)
    && Some(a.userAddress) == codec.address(if to == "" || to == ETH_ADDRESS then e.topic2.value else e.topic3.value)
  }

  /** The event's transfer is stored under the asset of its address and chain, unless its log
      was stored before; no other row changes. */
  ghost predicate TransferSaved(codec: Codec, e: MigrationEvent, assets: map<AssetKey, int>, before: TransferTable,
                                after: TransferTable)
    requires DescribesTransfer(codec, e)
  {
    var key, asset := TransferKey(e.transactionHash, e.logIndex), Asset(codec, e);
    && key in after && asset in assets
    && after == (if key in before then before else before[key := after[key]])
    && (key !in before ==> TransferTells(codec, e, after[key]) && after[key].assetId == assets[asset])
  }

  /** The row of `key` is the event's when it is new. When the event is newer the row takes its
      data but keeps its asset; otherwise it stays. */
  predicate RowSaved(codec: Codec, e: MigrationEvent, asset: int, key: ApprovalKey, before: ApprovalTable,
                     after: ApprovalTable)
    requires DescribesApproval(codec, e) && key in after
  {
    if key !in before then ApprovalTells(codec, e, after[key]) && after[key].assetId == asset
    else if e.blockTimestamp <= before[key].blockTimestamp then after[key] == before[key]
    else
      && DataTells(e, after[key])
      && after[key].Key() == before[key].Key() && after[key].assetId == before[key].assetId
  }

  /** The event's approval is saved in the row of its key, and no other row changes. */
  ghost predicate ApprovalSaved(codec: Codec, e: MigrationEvent, assets: map<AssetKey, int>, before: ApprovalTable,
                                after: ApprovalTable)
    requires DescribesApproval(codec, e)
  {
    var asset := Asset(codec, e);
    && asset in assets
    && (exists key :: KeyTells(codec, e, key) && key in after && after == before[key := after[key]]
                      && RowSaved(codec, e, assets[asset], key, before, after))
  }

  lemma InsertSaves(codec: Codec, e: MigrationEvent, assets: map<AssetKey, int>, before: TransferTable, row: Transfer)
    requires DescribesTransfer(codec, e) && TransferTells(codec, e, row)
    requires Asset(codec, e) in assets
    requires row.assetId == assets[Asset(codec, e)]
    ensures TransferSaved(codec, e, assets, before, InsertTransfer(before, row))
  {
    assert row.Key() == TransferKey(e.transactionHash, e.logIndex);
  }

  lemma UpsertSaves(codec: Codec, e: MigrationEvent, assets: map<AssetKey, int>, before: ApprovalTable, row: Approval)
    requires DescribesApproval(codec, e) && ApprovalTells(codec, e, row)
    requires Asset(codec, e) in assets
    requires row.assetId == assets[Asset(codec, e)]
    ensures ApprovalSaved(codec, e, assets, before, Upsert(before, row))
  {
    var key, after := row.Key(), Upsert(before, row);
    assert KeyTells(codec, e, key) && key in after && after == before[key := after[key]];
    var asset := assets[Asset(codec, e)];
    assert RowSaved(codec, e, asset, key, before, after);
  }

  /** The awaited calls of one delivery; any of them may throw before it has an effect. */
  datatype Await = FindAsset | SaveAsset | ReadBackAsset | CacheGet | CacheSet | Announce
                 | SaveTransfer | AppendApproval | UpsertApproval

  datatype Announcement = Announcement(userAddress: string, key: AssetKey)

  datatype Verdict = Ack | Nack

  class Database {
    /** Rows of assets_new: unique per (address, chain). */
    var assets: map<AssetKey, int>
    /** Assets whose data another service has filled in. */
    var dataPresent: set<AssetKey>
    var transfers: TransferTable
    var approvals: seq<Approval>
    var approvalsNew: ApprovalTable
    var cache: set<AssetKey>
    var announcements: seq<Announcement>

    /** Finds the asset row of an event or creates it. */
    method FindOrCreateAsset(key: AssetKey, freshId: int, failing: set<Await>) returns (id: Option<int>)
      requires freshId !in assets.Values
      modifies this`assets
      ensures assets == old(assets) || (key !in old(assets) && assets == old(assets)[key := freshId])
      ensures id.Some?
              <==> FindAsset !in failing && (key !in old(assets) ==> SaveAsset !in failing && ReadBackAsset !in failing)
      ensures id.Some? ==> key in assets && assets[key] == id.value
    {
      if FindAsset in failing {
        return None;
      }
      if key in assets {
        return Some(assets[key]);
      }
      if SaveAsset in failing {
        return None;
      }
      assets := assets[key := freshId];
      if ReadBackAsset in failing {
        return None;
      }
      return Some(assets[key]);
    }

    /** Announces an asset without data, once per cache entry. The entry is set first, so
        an announcement that then fails is not retried while the entry lives. */
    method AnnounceAsset(key: AssetKey, transfer: Transfer, failing: set<Await>) returns (ok: bool)
      modifies this`cache, this`announcements
      ensures ok <==> CacheGet !in failing && (key !in old(cache) ==> CacheSet !in failing && Announce !in failing)
      ensures cache == if CacheGet in failing || CacheSet in failing then old(cache) else old(cache) + {key}
      ensures ok ==> key in cache
      ensures announcements ==
              if ok && key !in old(cache)
              then old(announcements) + [Announcement(if transfer.to != "" && transfer.to != ETH_ADDRESS
                                                      then transfer.to else transfer.from, key)]
              else old(announcements)
    {
      if CacheGet in failing {
        return false;
      }
      if key !in cache {
        if CacheSet in failing {
          return false;
        }
        cache := cache + {key};
        if Announce in failing {
          return false;
        }
        var userAddress := if transfer.to != "" && transfer.to != ETH_ADDRESS then transfer.to else transfer.from;
        announcements := announcements + [Announcement(userAddress, key)];
      }
      return true;
    }

    /** The append-only insert, then the upsert; a failure between them leaves the first. */
    method SaveApproval(approval: Approval, failing: set<Await>) returns (ok: bool)
      modifies this`approvals, this`approvalsNew
      ensures ok <==> AppendApproval !in failing && UpsertApproval !in failing
      ensures approvals == if AppendApproval in failing then old(approvals) else old(approvals) + [approval]
      ensures approvalsNew == if ok then Upsert(old(approvalsNew), approval) else old(approvalsNew)
    {
      if AppendApproval in failing {
        return false;
      }
      approvals := approvals + [approval];
      if UpsertApproval in failing {
        return false;
      }
      approvalsNew := Upsert(approvalsNew, approval);
      return true;
    }

    /** One attempt at an event. What it leaves behind when it fails half-way is an asset
        row, a cache entry, an announcement or a line of the append-only approvals, never a
        change to the two converging tables. */
    method MigrateEvent(codec: Codec, event: MigrationEvent, freshId: int, failing: set<Await>) returns (ok: bool)
      requires freshId !in assets.Values
      modifies this
      ensures dataPresent == old(dataPresent)
      ensures forall key :: key in old(assets) ==> key in assets && assets[key] == old(assets)[key]
      ensures !CanBeParsed(codec, event) ==> !ok
      ensures !ok || IsSkipped(event) ==> transfers == old(transfers) && approvalsNew == old(approvalsNew)
      ensures !ok ==> old(approvals) <= approvals
      ensures IsSkipped(event) ==> ok && approvals == old(approvals) && assets == old(assets)
      ensures ok && DescribesTransfer(codec, event) ==>
                && TransferSaved(codec, event, assets, old(transfers), transfers)
                && approvals == old(approvals) && approvalsNew == old(approvalsNew)
      ensures ok && DescribesApproval(codec, event) ==>
                && ApprovalSaved(codec, event, assets, old(approvalsNew), approvalsNew)
                && transfers == old(transfers)
                && |approvals| == |old(approvals)| + 1 && old(approvals) <= approvals
                && ApprovalTells(codec, event, approvals[|old(approvals)|])
      ensures failing == {} && CanBeParsed(codec, event) ==> ok
      ensures old(announcements) <= announcements && |announcements| <= |old(announcements)| + 1
      ensures !DescribesTransfer(codec, event) || Asset(codec, event) in dataPresent + old(cache) ==>
                announcements == old(announcements)
      ensures ok && DescribesTransfer(codec, event) && Asset(codec, event) !in dataPresent ==> Asset(codec, event) in cache
      ensures ok && DescribesTransfer(codec, event) && Asset(codec, event) !in dataPresent + old(cache) ==>
                && |announcements| == |old(announcements)| + 1
                && AnnouncementTells(codec, event, announcements[|old(announcements)|])
    {
      EntityMeans(codec, event);
      var parsed := ToEntity(codec, event);
      if parsed.Err? {
        return false;
      }
      var entity := parsed.value;
      if entity.Skipped? {
        return true;
      }
      var key := AssetOf(codec, event);
      var id := FindOrCreateAsset(key, freshId, failing);
      if id.None? {
        return false;
      }
      match entity
      case TransferEntity(transfer) =>
        if key !in dataPresent {
          var announced := AnnounceAsset(key, transfer, failing);
          if !announced {
            return false;
          }
        }
        if SaveTransfer in failing {
          return false;
        }
        InsertSaves(codec, event, assets, transfers, transfer.(assetId := id.value));
        transfers := InsertTransfer(transfers, transfer.(assetId := id.value));
        ok := true;
      case ApprovalEntity(approval) =>
        UpsertSaves(codec, event, assets, approvalsNew, approval.(assetId := id.value));
        ok := SaveApproval(approval.(assetId := id.value), failing);
    }

    /** Acknowledged exactly when the attempt succeeded; otherwise handed back to the queue. */
    method HandleEvent(codec: Codec, event: MigrationEvent, freshId: int, failing: set<Await>)
      returns (verdict: Verdict)
      requires freshId !in assets.Values
      modifies this
      ensures verdict.Nack? ==> transfers == old(transfers) && approvalsNew == old(approvalsNew)
      ensures !CanBeParsed(codec, event) ==> verdict.Nack?
      ensures CanBeParsed(codec, event) && failing == {} ==> verdict.Ack?
      ensures IsSkipped(event) ==> transfers == old(transfers) && approvalsNew == old(approvalsNew)
      ensures verdict.Ack? && DescribesTransfer(codec, event) ==>
                TransferSaved(codec, event, assets, old(transfers), transfers) && approvalsNew == old(approvalsNew)
      ensures verdict.Ack? && DescribesApproval(codec, event) ==>
                ApprovalSaved(codec, event, assets, old(approvalsNew), approvalsNew) && transfers == old(transfers)
    {
      var ok := MigrateEvent(codec, event, freshId, failing);
      verdict := if ok then Ack else Nack;
    }
  }
}
