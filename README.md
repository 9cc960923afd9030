# BAYC subgraph indexing core, modelled in Dafny

This project models the on-chain indexing core of the Bored Ape Yacht Club
subgraph. Two AssemblyScript handler files turn ordered ERC-721 events into
entities in The Graph's key-value entity store:

- **Event mapper** (`subgraph/boredApes_simple/src/bored-ape-yacht-club.ts`).
  `handleApproval`, `handleApprovalForAll`, `handleOwnershipTransferred` and
  `handleTransfer` each save an audit record under
  `txHash.concatI32(logIndex)`. `handleTransfer` also does three
  load-or-creates. It loads or creates the Contract, which always gets the
  name "Bored Ape Yacht Club" and the symbol "BAYC". It loads or creates the
  recipient's Account. It loads or creates the Token under
  `contract.concatI32(tokenId)`. A new Token gets the recipient as owner and
  `ipfs://QmeSj…Wtq/<tokenId>` as its uri. Its `ipfsUri` is that uri minus
  its first 7 characters, and one metadata job is scheduled with it. A
  non-mint transfer then saves a PrevTokenAccount under
  `storedOwner.concat(tokenKey)`. Finally the handler moves the Token to the
  recipient and stamps it with the block time.
- **Metadata resolver** (`subgraph/boredApes/src/ipfs-handler.ts`).
  `handleTokenMetadata` walks the parsed JSON document. For each element of
  `attributes` that has both `trait_type` and `value`, it loads or creates
  the Attribute `param-trait-value` and pushes that id. It then saves the
  TokenMetadata under the job parameter, with `image` and the id list set
  only when both `image` and `attributes` are present.

Layout:

- `identity_codec.dfy` (module `IdentityCodec`): bytes, `ByteArray.fromI32`
  (four little-endian two's-complement bytes), `concatI32`. It also holds
  the round trip and injectivity lemmas for these keys.
- `token_uri.dfy` (`TokenUris`): the decimal rendering of a token id, the
  token uri, `substring(7)`, and the content address a job gets.
- `json_values.dfy` (`JsonValues`): parsed JSON values. `TypedMap.get`
  returns the first entry with a key.
- `schema.dfy` (`Schema`): events, entities (an entity's id is its store key,
  so the datatypes omit it), the store's contents as a value (`Graph`), the
  key derivations and the generic load-or-create.
- `entity_store.dfy` (`EntityStore`): the store as a class. It has one `map`
  field per entity kind, a `set` of account ids (an Account has nothing but
  its id) and a `seq` of scheduled metadata jobs.
- `mapping.dfy` (`Mapping`): the handlers as methods over the store, each
  proved against a function of the store's contents (`AfterTransfer` for
  `handleTransfer`).
- `ownership.dfy` (`Ownership`): lemmas about `AfterTransfer`. They cover the
  per-token state machine `Unseen → Owned(a) → Owned(b) …`, the mint
  exemption, the scheduling of one job per token, the key properties, a store
  invariant, and ownership after any sequence of transfers.
- `metadata_resolver.dfy` (`MetadataResolver`): `handleTokenMetadata` and its
  attribute loop as methods, proved against `AttributesAfter`, `KeptIds` and
  `AfterMetadata`.
- `metadata_properties.dfy` (`MetadataProperties`): lemmas about the id list,
  the Attribute store and the saved TokenMetadata.

Behaviour of the code worth stating outright, which the model keeps:

- The TokenMetadata is saved even when `image` or `attributes` is absent. Its
  fields are then left unset.
- Only the recipient's Account is created. The sender gets no Account from a
  transfer.
- A PrevTokenAccount is keyed by (stored owner, token). A repeated ownership
  cycle overwrites it instead of appending.
- Attribute ids use the `param-trait_type-value` join.

## Model

| member | source | states |
|---|---|---|
| IdentityCodec.I32Bytes | subgraph/boredApes_simple/src/bored-ape-yacht-club.ts:38 | the i32 suffix `concatI32` appends is exactly four bytes |
| IdentityCodec.ConcatI32 | subgraph/boredApes_simple/src/bored-ape-yacht-club.ts:121 | a `concatI32` key is its prefix plus four bytes |
| IdentityCodec.I32RoundTrip | subgraph/boredApes_simple/src/bored-ape-yacht-club.ts:38 | every i32 is read back unchanged from its four key bytes |
| IdentityCodec.I32BytesInjective | subgraph/boredApes_simple/src/bored-ape-yacht-club.ts:150 | distinct log indexes / token ids give distinct suffixes |
| IdentityCodec.ConcatI32Split | subgraph/boredApes_simple/src/bored-ape-yacht-club.ts:121 | both the prefix and the i32 can be recovered from a `concatI32` key |
| IdentityCodec.ConcatI32Injective | subgraph/boredApes_simple/src/bored-ape-yacht-club.ts:121 | over equal-width prefixes, equal `concatI32` keys mean equal prefix and equal value |
| IdentityCodec.ConcatInjective | subgraph/boredApes_simple/src/bored-ape-yacht-club.ts:177 | over equal-width owner addresses, `owner.concat(tokenKey)` determines owner and token key |
| TokenUris.DecimalString | subgraph/boredApes_simple/src/bored-ape-yacht-club.ts:130 | the token id in the uri is non-empty decimal digits with no leading zero |
| TokenUris.DecimalRoundTrip | subgraph/boredApes_simple/src/bored-ape-yacht-club.ts:130 | the decimal rendering of a token id parses back to the token id |
| TokenUris.DecimalInjective | subgraph/boredApes_simple/src/bored-ape-yacht-club.ts:130 | distinct token ids render as distinct decimal strings |
| TokenUris.Substring | subgraph/boredApes_simple/src/bored-ape-yacht-club.ts:133 | `substring(7)` drops the first 7 characters, or gives "" for a shorter string |
| TokenUris.TokenIpfsHash | subgraph/boredApes_simple/src/bored-ape-yacht-club.ts:130-135 | a token's content address is the directory CID + "/" + decimal id, and "ipfs://" + it is the uri again |
| TokenUris.TokenIpfsHashInjective | subgraph/boredApes_simple/src/bored-ape-yacht-club.ts:130-136 | distinct token ids get distinct uris and distinct metadata job parameters |
| TokenUris.TokenUri | subgraph/boredApes_simple/src/bored-ape-yacht-club.ts:130 | no contract of its own: the uri is the collection directory, `/` and the decimal token id; `NewToken` and `TokenIpfsHash` state what it means |
| TokenUris.IpfsHash | subgraph/boredApes_simple/src/bored-ape-yacht-club.ts:133 | a uri of at least 7 characters is its first 7 characters followed by the hash; a shorter uri gives "" |
| JsonValues.Get | subgraph/boredApes/src/ipfs-handler.ts:23-24 | `get(key)` is absent iff no entry has the key, else the value of the first entry with it |
| Schema.LoadOrCreate | subgraph/boredApes_simple/src/bored-ape-yacht-club.ts:82-113 | load-or-create returns the stored entity or saves the new one; nothing stored is overwritten; exactly the key is added |
| Schema.LoadOrCreateIdempotent | subgraph/boredApes_simple/src/bored-ape-yacht-club.ts:82-113 | a second load-or-create of the same key changes nothing and returns the same entity |
| Schema.AuditKey | subgraph/boredApes_simple/src/bored-ape-yacht-club.ts:38 | an event-log key is the transaction hash followed by four bytes (the log index, read back by `ConcatI32Split`) |
| Schema.TokenKey | subgraph/boredApes_simple/src/bored-ape-yacht-club.ts:121 | a Token key is the contract address followed by four bytes (the token id) |
| Schema.PrevOwnerKey | subgraph/boredApes_simple/src/bored-ape-yacht-club.ts:177 | a PrevTokenAccount key splits back into the owner address and the token key |
| Schema.NewToken | subgraph/boredApes_simple/src/bored-ape-yacht-club.ts:124-135 | a new Token holds the given id, contract, owner and timestamp, the uri of its id, and an ipfsUri that is the directory CID + "/" + decimal id, which "ipfs://" turns back into the uri |
| Mapping.HandleApproval | subgraph/boredApes_simple/src/bored-ape-yacht-club.ts:36-49 | saves exactly one Approval under txHash ++ i32(logIndex) copying owner, approved, tokenId, block number, timestamp and tx hash; a re-run changes nothing |
| Mapping.HandleApprovalForAll | subgraph/boredApes_simple/src/bored-ape-yacht-club.ts:51-64 | saves exactly one ApprovalForAll under txHash ++ i32(logIndex) copying the event; a re-run changes nothing |
| Mapping.HandleOwnershipTransferred | subgraph/boredApes_simple/src/bored-ape-yacht-club.ts:66-80 | saves exactly one OwnershipTransferred under txHash ++ i32(logIndex) copying the event; a re-run changes nothing |
| Mapping.GetContract | subgraph/boredApes_simple/src/bored-ape-yacht-club.ts:82-102 | load-or-create of the Contract; a new one is named "Bored Ape Yacht Club" with symbol "BAYC" |
| Mapping.GetAccount | subgraph/boredApes_simple/src/bored-ape-yacht-club.ts:104-113 | load-or-create of the Account: the account set gains exactly the address |
| Mapping.GetToken | subgraph/boredApes_simple/src/bored-ape-yacht-club.ts:115-146 | an existing Token is returned with no write and no job; an unseen one is created with the given owner, timestamp, uri and ipfsUri and exactly one job is appended |
| Mapping.LoadOrCreateToken | subgraph/boredApes_simple/src/bored-ape-yacht-club.ts:115-146 | the Token map gains exactly the token key and the returned Token is stored under it; stored Tokens are unchanged; a known token schedules no job; an unseen one is `NewToken` and appends its ipfsUri as the one job |
| Mapping.HandleTransfer | subgraph/boredApes_simple/src/bored-ape-yacht-club.ts:148-191 | the new store is `AfterTransfer` of the old one and the event |
| Mapping.AfterTransfer | subgraph/boredApes_simple/src/bored-ape-yacht-club.ts:148-191 | a transfer saves `TransferRecord(ev)` (from, to, tokenId, block number, timestamp, tx hash) under txHash ++ i32(logIndex) and leaves Approvals, ApprovalForAlls, OwnershipTransferreds, TokenMetadata and Attributes untouched; its Token, Account, Contract, PrevTokenAccount and job writes are stated in the `Ownership` lemmas |
| Ownership.TransferMovesToken | subgraph/boredApes_simple/src/bored-ape-yacht-club.ts:124-190 | after a transfer the token is owned by `to` and stamped with the block time; a known token keeps its other fields; an unseen one is created; no other token changes |
| Ownership.TransferSchedulesMetadataOnce | subgraph/boredApes_simple/src/bored-ape-yacht-club.ts:130-136 | a job for CID/tokenId is appended exactly when the token was unseen |
| Ownership.MintExemption | subgraph/boredApes_simple/src/bored-ape-yacht-club.ts:172-186 | a mint writes no PrevTokenAccount; any other transfer writes exactly one under storedOwner ++ tokenKey naming the stored owner, which is the recipient for a token first seen |
| Ownership.TransferCreatesOnlyRecipientAccount | subgraph/boredApes_simple/src/bored-ape-yacht-club.ts:163-164 | only `to` is added to the accounts, the sender never is; the Contract is load-or-created |
| Ownership.AuditKeysDistinct | subgraph/boredApes_simple/src/bored-ape-yacht-club.ts:149-151 | events with different (tx hash, log index) get different audit keys |
| Ownership.TokenKeysDistinct | subgraph/boredApes_simple/src/bored-ape-yacht-club.ts:121 | tokens with different (contract, token id) get different keys |
| Ownership.PrevOwnerKeysDistinct | subgraph/boredApes_simple/src/bored-ape-yacht-club.ts:177 | different (owner, token) pairs get different PrevTokenAccount keys |
| Ownership.EmptyGraphWellFormed | subgraph/boredApes_simple/src/bored-ape-yacht-club.ts:148-191 | the empty store satisfies the store invariant |
| Ownership.TransferPreservesWellFormed | subgraph/boredApes_simple/src/bored-ape-yacht-club.ts:148-191 | every Token stays under its own key with its uri, a stored owner Account, a stored Contract and a scheduled job; every PrevTokenAccount links a stored Account and Token |
| Ownership.TransferOnlyGrows | subgraph/boredApes_simple/src/bored-ape-yacht-club.ts:163-170 | a transfer adds the recipient's Account and the Token and at most appends a job: stored Accounts, Token keys and jobs are all kept |
| Ownership.Replay | subgraph/boredApes_simple/src/bored-ape-yacht-club.ts:148-191 | handling transfers in feed order only adds Tokens and Accounts and only appends jobs; every recipient has an Account and every transferred Token is stored; TokenMetadata and Attributes are untouched |
| Ownership.ReplayOwner | subgraph/boredApes_simple/src/bored-ape-yacht-club.ts:188-190 | after any sequence of transfers a token's owner is the recipient of its last transfer; untouched tokens are unchanged |
| Ownership.FinalOwner | subgraph/boredApes_simple/src/bored-ape-yacht-club.ts:188-190 | after n transfers of one token its owner is the n-th `to` |
| Ownership.ReplayKeepsTokenIdentity | subgraph/boredApes_simple/src/bored-ape-yacht-club.ts:124-190 | uri, ipfsUri, tokenId and contract are never reassigned after creation |
| Ownership.ReplayPreservesWellFormed | subgraph/boredApes_simple/src/bored-ape-yacht-club.ts:148-191 | the store invariant holds after any sequence of transfers |
| Ownership.MintThenTransfer | subgraph/boredApes_simple/src/bored-ape-yacht-club.ts:172-190 | mint to a then a → b of token 234: owner a and no record, then owner b and exactly one record linking a |
| MetadataResolver.Kept | subgraph/boredApes/src/ipfs-handler.ts:36 | an element is kept iff it is in the array and has both trait entries |
| MetadataResolver.KeptIds | subgraph/boredApes/src/ipfs-handler.ts:26-47 | the pushed id list is never longer than the array; `KeptIdsFollowKept` fixes its contents |
| MetadataResolver.AttributeId | subgraph/boredApes/src/ipfs-handler.ts:37 | an Attribute id is the parameter, `-`, then the trait and value with one more `-`: two characters longer than the three parts |
| MetadataResolver.AttributesAfter | subgraph/boredApes/src/ipfs-handler.ts:37-44 | the loop never overwrites a stored Attribute, adds exactly the pushed ids, and a created Attribute's id is param-key-value |
| MetadataResolver.CollectAttributes | subgraph/boredApes/src/ipfs-handler.ts:28-48 | the loop pushes `KeptIds` and leaves the Attribute store at `AttributesAfter` |
| MetadataResolver.MetadataRecord | subgraph/boredApes/src/ipfs-handler.ts:51-54 | `image` is set iff the document has both `image` and `attributes`, `attributes` iff `image`, and then they hold the image string and the pushed ids |
| MetadataResolver.AfterMetadata | subgraph/boredApes/src/ipfs-handler.ts:18-58 | the TokenMetadata under the parameter is saved, stored Attributes keep their values, and nothing but Attributes and TokenMetadata changes |
| MetadataResolver.HandleTokenMetadata | subgraph/boredApes/src/ipfs-handler.ts:18-58 | the new store is `AfterMetadata` of the old one, the parameter and the document |
| MetadataProperties.KeptConcat | subgraph/boredApes/src/ipfs-handler.ts:30-47 | the kept elements keep array order |
| MetadataProperties.KeptIdsFollowKept | subgraph/boredApes/src/ipfs-handler.ts:29-47 | the id list has one entry per kept element, the j-th being the id of the j-th kept element |
| MetadataProperties.RepeatedTraitsRepeatIds | subgraph/boredApes/src/ipfs-handler.ts:46 | a repeated identical trait pushes its id twice |
| MetadataProperties.UnusableElementsIgnored | subgraph/boredApes/src/ipfs-handler.ts:36 | elements lacking `trait_type` or `value` push nothing |
| MetadataProperties.KeptIdsHas | subgraph/boredApes/src/ipfs-handler.ts:36-46 | the id of every element with both trait entries is pushed |
| MetadataProperties.CreatedAttributeOrigin | subgraph/boredApes/src/ipfs-handler.ts:36-44 | an Attribute the loop creates holds the `trait_type` and `value` of the first usable element whose id it is, and no earlier element has that id |
| MetadataProperties.AttributesAfterStable | subgraph/boredApes/src/ipfs-handler.ts:38-44 | when every id already exists, the loop writes nothing |
| MetadataProperties.ResolveTwice | subgraph/boredApes/src/ipfs-handler.ts:18-58 | running the same job twice leaves the store as one run does |
| MetadataProperties.MetadataAlwaysSaved | subgraph/boredApes/src/ipfs-handler.ts:51-56 | the TokenMetadata is always saved; image and attributes are set iff both keys are present |
| MetadataProperties.MetadataFieldValues | subgraph/boredApes/src/ipfs-handler.ts:51-54 | with both keys present, image is the image string and attributes is the id list, or [] when `attributes` is not an array |
| MetadataProperties.MetadataTouchesOnlyItsEntry | subgraph/boredApes/src/ipfs-handler.ts:20-56 | other TokenMetadata, existing Attributes, Tokens, Accounts and jobs are untouched |
| MetadataProperties.AttributesWithoutImage | subgraph/boredApes/src/ipfs-handler.ts:28-56 | without `image`, Attributes are still created while the TokenMetadata has no fields set |
| MetadataProperties.FurBrownExample | subgraph/boredApes/src/ipfs-handler.ts:28-56 | the Fur/Brown document gives image "ipfs://X", attributes ["P-Fur-Brown"] and Attribute (Fur, Brown) |

## Left out

- `json.fromBytes` and the IPFS fetch. The resolver takes an already-parsed
  JSON value. A fetch failure, or content that is not JSON, is outside the
  model.
- Runtime aborts are preconditions, not modelled behaviour:
  - `BigInt.toI32` on a log index or token id outside the i32 range.
  - `toObject()` on a document or array element that is not an object.
  - `toString()` on a trait field or `image` that is not a string.
- `dataSource.stringParam()` becomes the explicit `param` argument.
- `TokenMetadataTemplate.create` becomes appending to `metadataJobs`. The
  job itself runs when the caller invokes `HandleTokenMetadata`.
- `log.info` calls are dropped.
- Store failures are not modelled. Every `save()` succeeds.
- Chain reorganisations, concurrent metadata jobs and out-of-order delivery
  are not modelled. `Replay` handles events strictly in feed order.
- Event parameters declared `uint256`, the log index and block values are
  `nat`. Negative BigInts never reach the handlers.
- Injectivity of Attribute ids is not claimed. The `-` join collides when a
  trait string contains `-`, so the first element with a given id decides
  the stored Attribute (`CreatedAttributeOrigin`).
- PrevTokenAccount ids are not unique across repeated ownership by the same
  account. `MintExemption` states the overwrite instead.
- A Token links to its metadata through `ipfsUri`, the TokenMetadata's id,
  which is set once at creation; the metadata job never writes to the Token,
  so the model does not relate the two stores beyond that shared id.
- `subgraph/boredApes/src/bored-ape-yacht-club.ts` is not part of this model.
  It is the string-id (`hash-logIndex`) handler variant exercised by the
  matchstick tests.
- The test helpers, the deployment stacks, the configuration and database
  lambdas, and the React frontend contain no indexing logic.
