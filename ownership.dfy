/**
  What `handleTransfer` does to the ownership graph, stated over
  `Mapping.AfterTransfer`: the per-token state machine
  Unseen -> Owned(a) -> Owned(b) -> ..., the mint exemption for previous-owner
  records, the metadata job scheduled once per token, the store invariant the
  handler keeps, and the owner after a whole sequence of transfers.
 */
module Ownership {
  import opened IdentityCodec
  import opened TokenUris
  import opened JsonValues
  import opened Schema
  import opened Mapping

  /** A Transfer whose log index and token id `toI32` converts without aborting. */
  predicate ValidTransfer(ev: TransferEvent) {
    InI32(ev.ctx.logIndex) && InI32(ev.tokenId)
  }

  function KeyOf(ev: TransferEvent): Bytes
    requires ValidTransfer(ev)
  {
    TokenKey(ev.ctx.address, ev.tokenId)
  }

  /**
    The owner recorded for the token when the transfer reads it: the stored
    owner of a known token, or the recipient for a token the transfer creates.
   */
  function StoredOwner(g: Graph, ev: TransferEvent): Bytes
    requires ValidTransfer(ev)
  {
    if KeyOf(ev) in g.tokens then g.tokens[KeyOf(ev)].owner else ev.to
  }

  // ---------------------------------------------------------------------------
  // One transfer

  /**
    After a transfer the token is owned by the recipient and stamped with the
    block time. A known token keeps every other field; an unseen one is
    created with its uri and content address. No other token changes.
   */
  lemma TransferMovesToken(g: Graph, ev: TransferEvent)
    requires ValidTransfer(ev)
    ensures var r := AfterTransfer(g, ev); var key := KeyOf(ev);
      && key in r.tokens
      && r.tokens[key].owner == ev.to
      && r.tokens[key].updatedAtTimestamp == ev.ctx.blockTimestamp
      && (key in g.tokens ==>
            r.tokens[key] == g.tokens[key].(owner := ev.to, updatedAtTimestamp := ev.ctx.blockTimestamp))
      && (key !in g.tokens ==>
            r.tokens[key] == NewToken(ev.ctx.address, ev.to, ev.tokenId, ev.ctx.blockTimestamp))
    ensures var r := AfterTransfer(g, ev);
      forall k :: k != KeyOf(ev) ==> (k in r.tokens <==> k in g.tokens) && (k in g.tokens ==> r.tokens[k] == g.tokens[k])
  {
  }

  /**
    A metadata job is scheduled exactly when the token is unseen, and its
    parameter is the collection's directory followed by `/` and the decimal
    token id.
   */
  lemma TransferSchedulesMetadataOnce(g: Graph, ev: TransferEvent)
    requires ValidTransfer(ev)
    ensures AfterTransfer(g, ev).metadataJobs ==
      g.metadataJobs + if KeyOf(ev) in g.tokens then [] else [MetadataCid + "/" + DecimalString(ev.tokenId)]
  {
    TokenIpfsHash(ev.tokenId);
  }

  /**
    Mint exemption: a transfer from the zero address writes no
    PrevTokenAccount; any other transfer writes exactly one, keyed by the
    stored owner followed by the token key and naming that stored owner (the
    recipient itself when the token was unseen), replacing any earlier
    record under that key.
   */
  lemma MintExemption(g: Graph, ev: TransferEvent)
    requires ValidTransfer(ev)
    ensures ev.from == ZeroAddress ==> AfterTransfer(g, ev).prevTokenAccounts == g.prevTokenAccounts
    ensures ev.from != ZeroAddress ==>
      AfterTransfer(g, ev).prevTokenAccounts ==
        g.prevTokenAccounts[PrevOwnerKey(StoredOwner(g, ev), KeyOf(ev)) := PrevTokenAccount(StoredOwner(g, ev), KeyOf(ev))]
    ensures ev.from != ZeroAddress && KeyOf(ev) !in g.tokens ==>
      AfterTransfer(g, ev).prevTokenAccounts[PrevOwnerKey(ev.to, KeyOf(ev))] == PrevTokenAccount(ev.to, KeyOf(ev))
  {
  }

  /**
    Only the recipient's Account is loaded or created: the sender gets none
    unless it already had one. The Contract is load-or-created with the
    fixed name and symbol.
   */
  lemma TransferCreatesOnlyRecipientAccount(g: Graph, ev: TransferEvent)
    requires ValidTransfer(ev)
    ensures AfterTransfer(g, ev).accounts == g.accounts + {ev.to}
    ensures ev.from != ev.to && ev.from !in g.accounts ==> ev.from !in AfterTransfer(g, ev).accounts
    ensures AfterTransfer(g, ev).contracts ==
      if ev.ctx.address in g.contracts then g.contracts else g.contracts[ev.ctx.address := BaycContract]
  {
  }

  // ---------------------------------------------------------------------------
  // Keys

  /** Two events with different (transaction hash, log index) get different audit keys. */
  lemma AuditKeysDistinct(c: EventContext, d: EventContext)
    requires InI32(c.logIndex) && InI32(d.logIndex)
    requires |c.txHash| == |d.txHash|
    requires c.txHash != d.txHash || c.logIndex != d.logIndex
    ensures AuditKey(c) != AuditKey(d)
  {
    if AuditKey(c) == AuditKey(d) {
      ConcatI32Injective(c.txHash, c.logIndex, d.txHash, d.logIndex);
    }
  }

  /** Tokens of same-width contracts have the same key only if contract and token id agree. */
  lemma TokenKeysDistinct(c: Bytes, m: nat, d: Bytes, n: nat)
    requires InI32(m) && InI32(n)
    requires |c| == |d|
    requires c != d || m != n
    ensures TokenKey(c, m) != TokenKey(d, n)
  {
    if TokenKey(c, m) == TokenKey(d, n) {
      ConcatI32Injective(c, m, d, n);
    }
  }

  /** Over same-width owner addresses, a PrevTokenAccount key names one (owner, token) pair. */
  lemma PrevOwnerKeysDistinct(a: Bytes, s: Bytes, b: Bytes, t: Bytes)
    requires |a| == |b|
    requires a != b || s != t
    ensures PrevOwnerKey(a, s) != PrevOwnerKey(b, t)
  {
    if PrevOwnerKey(a, s) == PrevOwnerKey(b, t) {
      ConcatInjective(a, s, b, t);
    }
  }

  // ---------------------------------------------------------------------------
  // The store invariant

  /** A stored Token sits under its own key, with the uri of its id, a known owner and contract, and a job. */
  predicate TokenFits(g: Graph, k: Bytes)
    requires k in g.tokens
  {
    var t := g.tokens[k];
    && InI32(t.tokenId)
    && k == TokenKey(t.contract, t.tokenId)
    && t.uri == TokenUri(t.tokenId)
    && t.ipfsUri == IpfsHash(t.uri)
    && t.contract in g.contracts
    && t.owner in g.accounts
    && t.ipfsUri in g.metadataJobs
  }

  /** A stored PrevTokenAccount sits under owner ++ token and links a known Account to a known Token. */
  predicate PrevFits(g: Graph, k: Bytes)
    requires k in g.prevTokenAccounts
  {
    var p := g.prevTokenAccounts[k];
    && k == PrevOwnerKey(p.account, p.token)
    && p.account in g.accounts
    && p.token in g.tokens
  }

  predicate WellFormed(g: Graph) {
    && (forall a :: a in g.contracts ==> g.contracts[a] == BaycContract)
    && (forall k :: k in g.tokens ==> TokenFits(g, k))
    && (forall k :: k in g.prevTokenAccounts ==> PrevFits(g, k))
  }

  lemma EmptyGraphWellFormed()
    ensures WellFormed(EmptyGraph)
  {
  }

  /**
    `handleTransfer` keeps the store well formed: in particular every Token
    always has an owner that is a stored Account, and every previous-owner
    record names a stored Account and Token.
   */
  lemma TransferPreservesWellFormed(g: Graph, ev: TransferEvent)
    requires ValidTransfer(ev)
    requires WellFormed(g)
    ensures WellFormed(AfterTransfer(g, ev))
  {
    var r := AfterTransfer(g, ev);
    TransferMovesToken(g, ev);
    assert forall a :: a in r.contracts ==> r.contracts[a] == BaycContract;
    forall k | k in r.tokens
      ensures TokenFits(r, k)
    {
      TransferKeepsTokenFits(g, ev, k);
    }
    forall k | k in r.prevTokenAccounts
      ensures PrevFits(r, k)
    {
      TransferKeepsPrevFits(g, ev, k);
    }
  }

  lemma TransferKeepsTokenFits(g: Graph, ev: TransferEvent, k: Bytes)
    requires ValidTransfer(ev)
    requires WellFormed(g)
    requires k in AfterTransfer(g, ev).tokens
    ensures TokenFits(AfterTransfer(g, ev), k)
  {
    var key := KeyOf(ev);
    TransferMovesToken(g, ev);
    if k == key {
      if key in g.tokens {
        assert TokenFits(g, key);
      }
    } else {
      assert TokenFits(g, k);
    }
  }

  lemma TransferKeepsPrevFits(g: Graph, ev: TransferEvent, k: Bytes)
    requires ValidTransfer(ev)
    requires WellFormed(g)
    requires k in AfterTransfer(g, ev).prevTokenAccounts
    ensures PrevFits(AfterTransfer(g, ev), k)
  {
    var key := KeyOf(ev);
    TransferMovesToken(g, ev);
    if k in g.prevTokenAccounts && (ev.from == ZeroAddress || k != PrevOwnerKey(StoredOwner(g, ev), key)) {
      assert PrevFits(g, k);
    } else if key in g.tokens {
      assert TokenFits(g, key);
    }
  }

  // ---------------------------------------------------------------------------
  // Sequences of transfers, in feed order

  predicate AllValid(evs: seq<TransferEvent>) {
    forall i :: 0 <= i < |evs| ==> ValidTransfer(evs[i])
  }

  /** The store after handling evs in order. */
  function Replay(g: Graph, evs: seq<TransferEvent>): (r: Graph)
    requires AllValid(evs)
    ensures g.tokens.Keys <= r.tokens.Keys && g.accounts <= r.accounts && g.metadataJobs <= r.metadataJobs
    ensures forall i :: 0 <= i < |evs| ==> evs[i].to in r.accounts
    ensures forall i :: 0 <= i < |evs| ==> KeyOf(evs[i]) in r.tokens
    ensures r.tokenMetadata == g.tokenMetadata && r.attributes == g.attributes
    decreases |evs|
  {
    if evs == [] then g
    else
      var prefix := evs[..|evs| - 1];
      assert AllValid(prefix) by {
        forall i | 0 <= i < |prefix| ensures ValidTransfer(prefix[i]) {
          assert prefix[i] == evs[i];
        }
      }
      var prev := Replay(g, prefix);
      var last := evs[|evs| - 1];
      assert forall i :: 0 <= i < |prefix| ==> prefix[i] == evs[i];
      TransferOnlyGrows(prev, last);
      AfterTransfer(prev, last)
  }

  /** One transfer only adds: the recipient's Account, the Token, and possibly one job. */
  lemma TransferOnlyGrows(g: Graph, ev: TransferEvent)
    requires ValidTransfer(ev)
    ensures var r := AfterTransfer(g, ev);
      && ev.to in r.accounts && g.accounts <= r.accounts
      && KeyOf(ev) in r.tokens && g.tokens.Keys <= r.tokens.Keys
      && g.metadataJobs <= r.metadataJobs
  {
    TransferMovesToken(g, ev);
    TransferSchedulesMetadataOnce(g, ev);
  }

  /** The recipient of the last transfer in evs whose token key is key, if any. */
  function LastRecipient(evs: seq<TransferEvent>, key: Bytes): Option<Bytes>
    requires AllValid(evs)
    decreases |evs|
  {
    if evs == [] then None
    else
      var prefix := evs[..|evs| - 1];
      assert AllValid(prefix) by {
        forall i | 0 <= i < |prefix| ensures ValidTransfer(prefix[i]) {
          assert prefix[i] == evs[i];
        }
      }
      if KeyOf(evs[|evs| - 1]) == key then Some(evs[|evs| - 1].to) else LastRecipient(prefix, key)
  }

  /**
    Ownership follows the feed: after any sequence of transfers a token is
    owned by the recipient of the last transfer of that token, and a token
    no transfer in the sequence touches is exactly as it was.
   */
  lemma {:induction false} ReplayOwner(g: Graph, evs: seq<TransferEvent>, key: Bytes)
    requires AllValid(evs)
    ensures LastRecipient(evs, key).Some? ==>
      key in Replay(g, evs).tokens && Replay(g, evs).tokens[key].owner == LastRecipient(evs, key).value
    ensures LastRecipient(evs, key).None? ==>
      && (key in Replay(g, evs).tokens <==> key in g.tokens)
      && (key in g.tokens ==> Replay(g, evs).tokens[key] == g.tokens[key])
    decreases |evs|
  {
    if evs != [] {
      var prefix := evs[..|evs| - 1];
      var last := evs[|evs| - 1];
      assert AllValid(prefix) by {
        forall i | 0 <= i < |prefix| ensures ValidTransfer(prefix[i]) {
          assert prefix[i] == evs[i];
        }
      }
      ReplayOwner(g, prefix, key);
      TransferMovesToken(Replay(g, prefix), last);
    }
  }

  /** After n transfers of one token, its owner is the n-th recipient. */
  lemma FinalOwner(g: Graph, evs: seq<TransferEvent>)
    requires AllValid(evs) && |evs| > 0
    requires forall i :: 0 <= i < |evs| ==> KeyOf(evs[i]) == KeyOf(evs[0])
    ensures KeyOf(evs[0]) in Replay(g, evs).tokens
    ensures Replay(g, evs).tokens[KeyOf(evs[0])].owner == evs[|evs| - 1].to
  {
    ReplayOwner(g, evs, KeyOf(evs[0]));
  }

  /**
    A token's uri, content address, token id and contract are fixed when it
    is created: no later transfer of any token reassigns them.
   */
  lemma {:induction false} ReplayKeepsTokenIdentity(g: Graph, evs: seq<TransferEvent>, key: Bytes)
    requires AllValid(evs)
    requires key in g.tokens
    ensures key in Replay(g, evs).tokens
    ensures var t := Replay(g, evs).tokens[key];
      t.uri == g.tokens[key].uri && t.ipfsUri == g.tokens[key].ipfsUri &&
      t.tokenId == g.tokens[key].tokenId && t.contract == g.tokens[key].contract
    decreases |evs|
  {
    if evs != [] {
      var prefix := evs[..|evs| - 1];
      assert AllValid(prefix) by {
        forall i | 0 <= i < |prefix| ensures ValidTransfer(prefix[i]) {
          assert prefix[i] == evs[i];
        }
      }
      ReplayKeepsTokenIdentity(g, prefix, key);
      TransferMovesToken(Replay(g, prefix), evs[|evs| - 1]);
    }
  }

  /** Every store reached from the empty store by transfers is well formed. */
  lemma {:induction false} ReplayPreservesWellFormed(g: Graph, evs: seq<TransferEvent>)
    requires AllValid(evs)
    requires WellFormed(g)
    ensures WellFormed(Replay(g, evs))
    decreases |evs|
  {
    if evs != [] {
      var prefix := evs[..|evs| - 1];
      assert AllValid(prefix) by {
        forall i | 0 <= i < |prefix| ensures ValidTransfer(prefix[i]) {
          assert prefix[i] == evs[i];
        }
      }
      ReplayPreservesWellFormed(g, prefix);
      TransferPreservesWellFormed(Replay(g, prefix), evs[|evs| - 1]);
    }
  }

  /**
    Mint then transfer: Transfer(0x0 -> a, token 234) leaves the token owned
    by a and no previous-owner record; Transfer(a -> b, token 234) then
    leaves it owned by b with exactly one record, linking a to the token.
   */
  lemma MintThenTransfer(mint: TransferEvent, next: TransferEvent, a: Bytes, b: Bytes)
    requires ValidTransfer(mint) && ValidTransfer(next)
    requires mint.from == ZeroAddress && mint.to == a && mint.tokenId == 234
    requires next.from == a && next.to == b && next.tokenId == 234
    requires next.ctx.address == mint.ctx.address
    requires a != ZeroAddress
    ensures var g1 := AfterTransfer(EmptyGraph, mint); var key := KeyOf(mint);
      key in g1.tokens && g1.tokens[key].owner == a && g1.prevTokenAccounts == map[]
    ensures var g2 := AfterTransfer(AfterTransfer(EmptyGraph, mint), next); var key := KeyOf(mint);
      && key in g2.tokens && g2.tokens[key].owner == b
      && g2.prevTokenAccounts == map[PrevOwnerKey(a, key) := PrevTokenAccount(a, key)]
      && |g2.prevTokenAccounts| == 1
  {
    var g1 := AfterTransfer(EmptyGraph, mint);
    TransferMovesToken(EmptyGraph, mint);
    MintExemption(EmptyGraph, mint);
    TransferMovesToken(g1, next);
    MintExemption(g1, next);
  }
}
