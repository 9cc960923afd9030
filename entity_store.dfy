/**
  The entity store the handlers load from and save into: one map per entity
  kind, the set of account ids and the sequence of scheduled metadata jobs.
  `load(id)` is a lookup in the kind's map and `save()` an update of it.
 */
module EntityStore {
  import opened IdentityCodec
  import opened Schema

  class Store {
    var approvals: map<Bytes, Approval>
    var approvalsForAll: map<Bytes, ApprovalForAll>
    var ownershipTransfers: map<Bytes, OwnershipTransferred>
    var transfers: map<Bytes, Transfer>
    var contracts: map<Bytes, Contract>
    var accounts: set<Bytes>
    var tokens: map<Bytes, Token>
    var prevTokenAccounts: map<Bytes, PrevTokenAccount>
    var metadataJobs: seq<string>
    var tokenMetadata: map<string, TokenMetadata>
    var attributes: map<string, Attribute>

    /** An empty store, before the first event. */
    constructor ()
      ensures Contents() == EmptyGraph
    {
      approvals, approvalsForAll, ownershipTransfers, transfers := map[], map[], map[], map[];
      contracts, accounts, tokens, prevTokenAccounts := map[], {}, map[], map[];
      metadataJobs, tokenMetadata, attributes := [], map[], map[];
    }

    /** The store's contents as a value. */
    function Contents(): Graph
      reads this
    {
      Graph(approvals, approvalsForAll, ownershipTransfers, transfers, contracts, accounts,
            tokens, prevTokenAccounts, metadataJobs, tokenMetadata, attributes)
    }
  }
}
