/**
  The events the indexer consumes and the entities it stores.

  An entity's id is the key it is saved under, so the entity datatypes below
  hold only the other fields; `Graph` is the whole store as a value, one map
  per entity kind. An Account has no field besides its id, so the accounts
  are a set of ids. The metadata jobs that `TokenMetadataTemplate.create`
  registers are a sequence of content addresses, in scheduling order.
 */
module Schema {
  import opened IdentityCodec
  import opened JsonValues
  import opened TokenUris

  /** `Address.fromString('0x0000000000000000000000000000000000000000')`. */
  const ZeroAddress: Bytes := [0, 0, 0, 0, 0, 0, 0, 0, 0, 0, 0, 0, 0, 0, 0, 0, 0, 0, 0, 0]

  /** What every event carries besides its parameters. */
  datatype EventContext = EventContext(
    address: Bytes,        // the emitting contract
    txHash: Bytes,
    logIndex: nat,
    blockNumber: nat,
    blockTimestamp: nat)

  datatype ApprovalEvent = ApprovalEvent(ctx: EventContext, owner: Bytes, approved: Bytes, tokenId: nat)

  datatype ApprovalForAllEvent = ApprovalForAllEvent(ctx: EventContext, owner: Bytes, operator: Bytes, approved: bool)

  datatype OwnershipTransferredEvent = OwnershipTransferredEvent(ctx: EventContext, previousOwner: Bytes, newOwner: Bytes)

  datatype TransferEvent = TransferEvent(ctx: EventContext, from: Bytes, to: Bytes, tokenId: nat)

  // Audit records: the event parameters plus where the event was found.

  datatype Approval = Approval(
    owner: Bytes, approved: Bytes, tokenId: nat,
    blockNumber: nat, blockTimestamp: nat, transactionHash: Bytes)

  datatype ApprovalForAll = ApprovalForAll(
    owner: Bytes, operator: Bytes, approved: bool,
    blockNumber: nat, blockTimestamp: nat, transactionHash: Bytes)

  datatype OwnershipTransferred = OwnershipTransferred(
    previousOwner: Bytes, newOwner: Bytes,
    blockNumber: nat, blockTimestamp: nat, transactionHash: Bytes)

  datatype Transfer = Transfer(
    from: Bytes, to: Bytes, tokenId: nat,
    blockNumber: nat, blockTimestamp: nat, transactionHash: Bytes)

  // The ownership graph.

  datatype Contract = Contract(name: string, symbol: string)

  datatype Token = Token(
    tokenId: nat,
    contract: Bytes,
    owner: Bytes,
    updatedAtTimestamp: nat,
    uri: string,
    ipfsUri: string)

  datatype PrevTokenAccount = PrevTokenAccount(account: Bytes, token: Bytes)

  // Off-chain metadata. A field the handler leaves unset is None.

  datatype TokenMetadata = TokenMetadata(image: Option<string>, attributes: Option<seq<string>>)

  datatype Attribute = Attribute(key: string, value: string)

  /** Everything the store holds. */
  datatype Graph = Graph(
    approvals: map<Bytes, Approval>,
    approvalsForAll: map<Bytes, ApprovalForAll>,
    ownershipTransfers: map<Bytes, OwnershipTransferred>,
    transfers: map<Bytes, Transfer>,
    contracts: map<Bytes, Contract>,
    accounts: set<Bytes>,
    tokens: map<Bytes, Token>,
    prevTokenAccounts: map<Bytes, PrevTokenAccount>,
    metadataJobs: seq<string>,
    tokenMetadata: map<string, TokenMetadata>,
    attributes: map<string, Attribute>)

  const EmptyGraph: Graph := Graph(map[], map[], map[], map[], map[], {}, map[], map[], [], map[], map[])

  /** The only Contract this deployment ever creates. */
  const BaycContract: Contract := Contract("Bored Ape Yacht Club", "BAYC")

  /** Key of an event-log entity: the transaction hash, then the log index as an i32. */
  function AuditKey(ctx: EventContext): (key: Bytes)
    requires InI32(ctx.logIndex)
    ensures |key| == |ctx.txHash| + 4 && key[..|ctx.txHash|] == ctx.txHash
  {
    ConcatI32Split(ctx.txHash, ctx.logIndex);
    ConcatI32(ctx.txHash, ctx.logIndex)
  }

  /** Key of a Token: the contract address, then the token id as an i32. */
  function TokenKey(contract: Bytes, tokenId: nat): (key: Bytes)
    requires InI32(tokenId)
    ensures |key| == |contract| + 4 && key[..|contract|] == contract
  {
    ConcatI32Split(contract, tokenId);
    ConcatI32(contract, tokenId)
  }

  /** Key of a PrevTokenAccount: the previous owner's address, then the token key. */
  function PrevOwnerKey(owner: Bytes, tokenKey: Bytes): (key: Bytes)
    ensures |key| == |owner| + |tokenKey|
    ensures key[..|owner|] == owner && key[|owner|..] == tokenKey
  {
    owner + tokenKey
  }

  /** The Token `getToken` creates for an unseen token id. */
  function NewToken(contract: Bytes, owner: Bytes, tokenId: nat, timestamp: nat): (t: Token)
    ensures t.tokenId == tokenId && t.contract == contract && t.owner == owner && t.updatedAtTimestamp == timestamp
    ensures t.uri == TokenUri(tokenId) && IpfsScheme + t.ipfsUri == t.uri
    ensures t.ipfsUri == MetadataCid + "/" + DecimalString(tokenId)
  {
    TokenIpfsHash(tokenId);
    var uri := TokenUri(tokenId);
    Token(tokenId, contract, owner, timestamp, uri, IpfsHash(uri))
  }

  /**
    Load-or-create on one entity kind: the entity under k if there is one,
    otherwise `v`, saved under k. Nothing already stored is overwritten.
   */
  function LoadOrCreate<K, V>(m: map<K, V>, k: K, v: V): (r: (map<K, V>, V))
    ensures k in r.0 && r.0[k] == r.1
    ensures r.0.Keys == m.Keys + {k}
    ensures forall j :: j in m ==> r.0[j] == m[j]
    ensures k !in m ==> r.1 == v
  {
    if k in m then (m, m[k]) else (m[k := v], v)
  }

  /** Loading or creating the same entity a second time changes nothing and returns the same entity. */
  lemma LoadOrCreateIdempotent<K, V>(m: map<K, V>, k: K, v: V, w: V)
    ensures LoadOrCreate(LoadOrCreate(m, k, v).0, k, w) == LoadOrCreate(m, k, v)
  {
  }
}
