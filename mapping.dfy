/**
  The event handlers of the BAYC data source. Each handler writes an audit
  record of its event under `txHash ++ i32(logIndex)`; `HandleTransfer` also
  loads or creates the Contract, the recipient's Account and the Token,
  records the replaced owner for non-mint transfers, and moves the Token to
  its new owner.

  `AfterTransfer` is the same handler as a function of the store's contents;
  the lemmas about it are in module Ownership.
 */
module Mapping {
  import opened IdentityCodec
  import opened Schema
  import opened EntityStore

  // ---------------------------------------------------------------------------
  // Audit records

  function ApprovalRecord(ev: ApprovalEvent): Approval {
    Approval(ev.owner, ev.approved, ev.tokenId, ev.ctx.blockNumber, ev.ctx.blockTimestamp, ev.ctx.txHash)
  }

  function ApprovalForAllRecord(ev: ApprovalForAllEvent): ApprovalForAll {
    ApprovalForAll(ev.owner, ev.operator, ev.approved, ev.ctx.blockNumber, ev.ctx.blockTimestamp, ev.ctx.txHash)
  }

  function OwnershipTransferredRecord(ev: OwnershipTransferredEvent): OwnershipTransferred {
    OwnershipTransferred(ev.previousOwner, ev.newOwner, ev.ctx.blockNumber, ev.ctx.blockTimestamp, ev.ctx.txHash)
  }

  function TransferRecord(ev: TransferEvent): Transfer {
    Transfer(ev.from, ev.to, ev.tokenId, ev.ctx.blockNumber, ev.ctx.blockTimestamp, ev.ctx.txHash)
  }

  method HandleApproval(st: Store, ev: ApprovalEvent)
    requires InI32(ev.ctx.logIndex)
    modifies st`approvals
    ensures st.approvals == old(st.approvals)[AuditKey(ev.ctx) := ApprovalRecord(ev)]
    ensures var key := AuditKey(ev.ctx);
      old(key in st.approvals && st.approvals[key] == ApprovalRecord(ev)) ==> st.approvals == old(st.approvals)
  {
    var entity := ApprovalRecord(ev);
    st.approvals := st.approvals[AuditKey(ev.ctx) := entity];
  }

  method HandleApprovalForAll(st: Store, ev: ApprovalForAllEvent)
    requires InI32(ev.ctx.logIndex)
    modifies st`approvalsForAll
    ensures st.approvalsForAll == old(st.approvalsForAll)[AuditKey(ev.ctx) := ApprovalForAllRecord(ev)]
    ensures var key := AuditKey(ev.ctx);
      old(key in st.approvalsForAll && st.approvalsForAll[key] == ApprovalForAllRecord(ev)) ==>
        st.approvalsForAll == old(st.approvalsForAll)
  {
    var entity := ApprovalForAllRecord(ev);
    st.approvalsForAll := st.approvalsForAll[AuditKey(ev.ctx) := entity];
  }

  method HandleOwnershipTransferred(st: Store, ev: OwnershipTransferredEvent)
    requires InI32(ev.ctx.logIndex)
    modifies st`ownershipTransfers
    ensures st.ownershipTransfers == old(st.ownershipTransfers)[AuditKey(ev.ctx) := OwnershipTransferredRecord(ev)]
    ensures var key := AuditKey(ev.ctx);
      old(key in st.ownershipTransfers && st.ownershipTransfers[key] == OwnershipTransferredRecord(ev)) ==>
        st.ownershipTransfers == old(st.ownershipTransfers)
  {
    var entity := OwnershipTransferredRecord(ev);
    st.ownershipTransfers := st.ownershipTransfers[AuditKey(ev.ctx) := entity];
  }

  // ---------------------------------------------------------------------------
  // Load-or-create of the ownership graph's entities

  method GetContract(st: Store, address: Bytes) returns (contract: Contract)
    modifies st`contracts
    ensures (st.contracts, contract) == LoadOrCreate(old(st.contracts), address, BaycContract)
  {
    if address in st.contracts {
      contract := st.contracts[address];
    } else {
      contract := Contract(name := "Bored Ape Yacht Club", symbol := "BAYC");
      st.contracts := st.contracts[address := contract];
    }
  }

  /** Returns the account's id, which is all an Account holds. */
  method GetAccount(st: Store, address: Bytes) returns (account: Bytes)
    modifies st`accounts
    ensures account == address
    ensures st.accounts == old(st.accounts) + {address}
  {
    if address !in st.accounts {
      st.accounts := st.accounts + {address};
    }
    account := address;
  }

  /**
    `getToken` as a function of the token and job stores: the Token under
    `contract ++ i32(tokenId)` if there is one; otherwise a new Token owned by
    `owner`, saved, with one metadata job scheduled for its content address.
   */
  function LoadOrCreateToken(tokens: map<Bytes, Token>, jobs: seq<string>, contract: Bytes, owner: Bytes,
                             tokenId: nat, timestamp: nat): (r: (map<Bytes, Token>, seq<string>, Token))
    requires InI32(tokenId)
    ensures var key := TokenKey(contract, tokenId);
      && key in r.0 && r.0[key] == r.2 && r.0.Keys == tokens.Keys + {key}
      && (forall k :: k in tokens ==> r.0[k] == tokens[k])
      && (key in tokens ==> r.1 == jobs)
      && (key !in tokens ==> r.2 == NewToken(contract, owner, tokenId, timestamp) && r.1 == jobs + [r.2.ipfsUri])
  {
    var key := TokenKey(contract, tokenId);
    var created := NewToken(contract, owner, tokenId, timestamp);
    var loaded := LoadOrCreate(tokens, key, created);
    (loaded.0, if key in tokens then jobs else jobs + [created.ipfsUri], loaded.1)
  }

  method GetToken(st: Store, contract: Bytes, owner: Bytes, tokenId: nat, timestamp: nat) returns (token: Token)
    requires InI32(tokenId)
    modifies st`tokens, st`metadataJobs
    ensures (st.tokens, st.metadataJobs, token) ==
            LoadOrCreateToken(old(st.tokens), old(st.metadataJobs), contract, owner, tokenId, timestamp)
  {
    var tokenKey := TokenKey(contract, tokenId);
    if tokenKey in st.tokens {
      token := st.tokens[tokenKey];
    } else {
      token := NewToken(contract, owner, tokenId, timestamp);
      st.metadataJobs := st.metadataJobs + [token.ipfsUri];
      st.tokens := st.tokens[tokenKey := token];
    }
  }

  // ---------------------------------------------------------------------------
  // Transfer

  /** `handleTransfer` as a function of the store's contents. */
  function AfterTransfer(g: Graph, ev: TransferEvent): (r: Graph)
    requires InI32(ev.ctx.logIndex) && InI32(ev.tokenId)
    ensures r.transfers == g.transfers[AuditKey(ev.ctx) := TransferRecord(ev)]
    ensures r.approvals == g.approvals && r.approvalsForAll == g.approvalsForAll
    ensures r.ownershipTransfers == g.ownershipTransfers
    ensures r.tokenMetadata == g.tokenMetadata && r.attributes == g.attributes
  {
    var key := TokenKey(ev.ctx.address, ev.tokenId);
    var loaded := LoadOrCreateToken(g.tokens, g.metadataJobs, ev.ctx.address, ev.to, ev.tokenId, ev.ctx.blockTimestamp);
    var storedOwner := loaded.2.owner;
    var moved := loaded.2.(owner := ev.to, updatedAtTimestamp := ev.ctx.blockTimestamp);
    Graph(
      approvals := g.approvals,
      approvalsForAll := g.approvalsForAll,
      ownershipTransfers := g.ownershipTransfers,
      transfers := g.transfers[AuditKey(ev.ctx) := TransferRecord(ev)],
      contracts := LoadOrCreate(g.contracts, ev.ctx.address, BaycContract).0,
      accounts := g.accounts + {ev.to},
      tokens := loaded.0[key := moved],
      prevTokenAccounts :=
        if ev.from != ZeroAddress
        then g.prevTokenAccounts[PrevOwnerKey(storedOwner, key) := PrevTokenAccount(storedOwner, key)]
        else g.prevTokenAccounts,
      metadataJobs := loaded.1,
      tokenMetadata := g.tokenMetadata,
      attributes := g.attributes)
  }

  method HandleTransfer(st: Store, ev: TransferEvent)
    requires InI32(ev.ctx.logIndex) && InI32(ev.tokenId)
    modifies st`transfers, st`contracts, st`accounts, st`tokens, st`prevTokenAccounts, st`metadataJobs
    ensures st.Contents() == AfterTransfer(old(st.Contents()), ev)
  {
    ghost var g := st.Contents();
    ghost var loaded := LoadOrCreateToken(g.tokens, g.metadataJobs, ev.ctx.address, ev.to, ev.tokenId, ev.ctx.blockTimestamp);
    var entity := TransferRecord(ev);
    st.transfers := st.transfers[AuditKey(ev.ctx) := entity];

    var contract := GetContract(st, ev.ctx.address);
    var owner := GetAccount(st, ev.to);
    // the Contract entity contributes only its id, the event's address
    var token := GetToken(st, ev.ctx.address, owner, ev.tokenId, ev.ctx.blockTimestamp);
    var tokenKey := TokenKey(ev.ctx.address, ev.tokenId);
    assert token == loaded.2 && st.tokens == loaded.0 && st.metadataJobs == loaded.1;
    assert st.approvals == g.approvals && st.approvalsForAll == g.approvalsForAll;
    assert st.ownershipTransfers == g.ownershipTransfers;
    assert st.tokenMetadata == g.tokenMetadata && st.attributes == g.attributes;

    // a mint has no previous owner to record
    if ev.from != ZeroAddress {
      var prevOwnerKey := PrevOwnerKey(token.owner, tokenKey);
      st.prevTokenAccounts := st.prevTokenAccounts[prevOwnerKey := PrevTokenAccount(account := token.owner, token := tokenKey)];
    }

    token := token.(owner := owner, updatedAtTimestamp := ev.ctx.blockTimestamp);
    st.tokens := st.tokens[tokenKey := token];
  }
}
