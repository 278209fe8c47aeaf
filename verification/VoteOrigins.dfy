/** Where the votes of a vote set come from, and what the answers of AddVote mean. */
module VoteOrigins {
  import opened Options
  import opened Proposers
  import opened Votes
  import opened VoteSets
  import opened VoteSetInvariant
  import opened Tallies
  import opened Quorums

  /** The vote is in one of the two stores. */
  ghost predicate Holds(st: State, j: nat, w: Vote) {
    || (j < |st.votes| && st.votes[j] == Some(w))
    || exists h :: InBlock(st, h, j, w)
  }

  ghost predicate InBlock(st: State, h: Hash, j: nat, w: Vote) {
    h in st.blocks && j < |st.blocks[h].votes| && st.blocks[h].votes[j] == Some(w)
  }

  lemma PlaceOrigin(st: State, v: Vote, i: nat, power: int, j: nat, w: Vote)
    requires i < |st.votes| == |st.bits| && Holds(Place(st, v, i, power), j, w)
    ensures Holds(st, j, w) || (w == v && j == i)
  {
    var next := Place(st, v, i, power);
    if h :| InBlock(next, h, j, w) {
      assert InBlock(st, h, j, w);
    }
  }

  lemma CountOrigin(cfg: Config, st: State, v: Vote, i: nat, power: int, j: nat, w: Vote)
    requires Shaped(cfg, st) && i < |cfg.vals| && Holds(Count(cfg, st, v, i, power), j, w)
    ensures Holds(st, j, w) || (w == v && j == i)
  {
    hide Quorum;
    var next, h := Count(cfg, st, v, i, power), v.dataHash;
    var before := if h in st.blocks then st.blocks[h] else NewBlock(false, |cfg.vals|);
    var block := BlockAdd(before, v, i, power);
    assert next.blocks[h] == block;
    if j < |block.votes| && block.votes[j] == Some(w) && !(w == v && j == i) {
      assert InBlock(st, h, j, w);
    } else if k :| k != h && InBlock(next, k, j, w) {
      assert InBlock(st, k, j, w);
    }
  }

  /** AddVote stores nothing but the vote it was given, at its validator, and only after every check. */
  lemma AddVoteOrigin(cfg: Config, st: State, vote: Option<Vote>, j: nat, w: Vote)
    requires Shaped(cfg, st) && Holds(AddVote(cfg, st, vote).0, j, w)
    ensures Holds(st, j, w) || (vote == Some(w) && w.index == j && Refusal(cfg, st, vote) == None)
  {
    hide Quorum, Refusal, Tracks, Place, Count;
    if Refusal(cfg, st, vote) == None {
      var v, i := vote.value, vote.value.index;
      var power := cfg.vals[i].votingPower;
      var placed := Place(st, v, i, power);
      var next := AddVerified(cfg, st, v, i);
      SameStores(next, AddVote(cfg, st, vote).0, j, w);
      if Tracks(st, v, i) {
        CountOrigin(cfg, placed, v, i, power, j, w);
      }
      if Holds(placed, j, w) {
        PlaceOrigin(st, v, i, power, j, w);
      }
    }
  }

  lemma SameStores(st: State, next: State, j: nat, w: Vote)
    requires st.votes == next.votes && st.blocks == next.blocks && Holds(next, j, w)
    ensures Holds(st, j, w)
  {
    if h :| InBlock(next, h, j, w) {
      assert InBlock(st, h, j, w);
    }
  }

  lemma NothingHeld(cfg: Config, j: nat, w: Vote)
    ensures !Holds(NewState(cfg), j, w)
  {
  }

  // ---- the answers

  /** What each answer says about the vote, the state before and the state after. */
  ghost predicate Means(cfg: Config, st: State, vote: Option<Vote>, next: State, result: AddResult)
    requires Shaped(cfg, st) && Shaped(cfg, next)
  {
    match result
    case Added =>
      && vote.Some? && Good(cfg, vote.value)
      && var v, i := vote.value, vote.value.index;
      && st.votes[i] == None && next.votes[i] == vote && InBlock(next, v.dataHash, i, v)
      && next.sum == st.sum + cfg.vals[i].votingPower
    case Conflicting(added, existing) =>
      && vote.Some? && Good(cfg, vote.value)
      && var v, i := vote.value, vote.value.index;
      && st.votes[i] == Some(existing) && existing.dataHash != v.dataHash && next.sum == st.sum
      && (added <==> InBlock(next, v.dataHash, i, v))
      && (!added ==> next.blocks == st.blocks && next.maj23 == st.maj23)
      && next.votes[i] == if next.maj23 == Some(v.dataHash) then vote else Some(existing)
    case Duplicate => next == st && vote.Some? && Seen(st, vote.value, true)
    case Rejected(NonDeterministicSignature) => next == st && vote.Some? && Seen(st, vote.value, false)
    case _ => next == st && !(vote.Some? && Good(cfg, vote.value))
  }

  /** A vote of the same validator for the same block is stored, with the same signature or another one. */
  ghost predicate Seen(st: State, v: Vote, same: bool) {
    v.index >= 0 && exists w :: Holds(st, v.index, w) && (w.signature == v.signature) == same
                                && (w.dataHash == v.dataHash || InBlock(st, v.dataHash, v.index, w))
  }

  lemma RefusalMeans(cfg: Config, st: State, vote: Option<Vote>)
    requires Shaped(cfg, st) && Refusal(cfg, st, vote).Some?
    ensures Means(cfg, st, vote, st, Refusal(cfg, st, vote).value)
  {
    if vote.Some? && 0 <= vote.value.index < |cfg.vals| {
      var v := vote.value;
      var known := Known(st, v.index, v.dataHash);
      if known.Some? {
        assert Holds(st, v.index, known.value) by {
          if st.votes[v.index] != known { assert InBlock(st, v.dataHash, v.index, known.value); }
        }
      }
    }
  }

  lemma AddedMeans(cfg: Config, st: State, v: Vote)
    requires Shaped(cfg, st) && Refusal(cfg, st, Some(v)) == None && st.votes[v.index] == None
    ensures var next := AddVerified(cfg, st, v, v.index);
      && next.votes[v.index] == Some(v) && InBlock(next, v.dataHash, v.index, v)
      && next.sum == st.sum + cfg.vals[v.index].votingPower
  {
    hide Quorum, Verify;
  }

  lemma ConflictMeans(cfg: Config, st: State, v: Vote)
    requires Shaped(cfg, st) && Refusal(cfg, st, Some(v)) == None && st.votes[v.index].Some?
    ensures var next, added := AddVerified(cfg, st, v, v.index), Tracks(st, v, v.index);
      && st.votes[v.index].value.dataHash != v.dataHash && next.sum == st.sum
      && (added <==> InBlock(next, v.dataHash, v.index, v))
      && (!added ==> next.blocks == st.blocks && next.maj23 == st.maj23)
      && next.votes[v.index] == if next.maj23 == Some(v.dataHash) then Some(v) else st.votes[v.index]
  {
    hide Quorum, Verify;
  }

  /** Every answer of AddVote, with the exact effect it stands for. */
  lemma AnswersMean(cfg: Config, st: State, vote: Option<Vote>)
    requires Shaped(cfg, st)
    ensures Shaped(cfg, AddVote(cfg, st, vote).0)
    ensures Means(cfg, st, vote, AddVote(cfg, st, vote).0, AddVote(cfg, st, vote).1)
  {
    hide Quorum, Verify, AddVerified, Refusal, Tracks;
    AddVoteShaped(cfg, st, vote);
    if Refusal(cfg, st, vote).Some? {
      RefusalMeans(cfg, st, vote);
    } else if st.votes[vote.value.index].None? {
      AddedMeans(cfg, st, vote.value);
      StoresOnly(AddVerified(cfg, st, vote.value, vote.value.index), AddVote(cfg, st, vote).0);
    } else {
      ConflictMeans(cfg, st, vote.value);
    }
  }

  /** The index, the address and the type are those of a validator of this set. */
  ghost predicate Placed(cfg: Config, v: Vote) {
    && 0 <= v.index < |cfg.vals| && v.msgType == cfg.msgType
    && v.address != [] && v.address == cfg.vals[v.index].address
  }

  /** The vote that getVote finds: the canonical one if it is for the same hash, else the one of the block. */
  ghost predicate Found(st: State, v: Vote, w: Vote) {
    && 0 <= v.index < |st.votes|
    && if st.votes[v.index].Some? && st.votes[v.index].value.dataHash == v.dataHash then st.votes[v.index] == Some(w)
       else InBlock(st, v.dataHash, v.index, w)
  }

  /** Nothing is found, and the key behind the index has the address. */
  ghost predicate Unseen(cfg: Config, st: State, v: Vote) {
    && Placed(cfg, v) && (forall w :: !Found(st, v, w))
    && cfg.crypto.addressOf(cfg.vals[v.index].pubKey) == v.address
  }

  /** The signature is the validator's over the vote. */
  ghost predicate SignedBy(cfg: Config, v: Vote)
    requires 0 <= v.index < |cfg.vals|
  {
    var bytes := SignBytes(cfg.crypto.times, cfg.chainID, v.msgType, v.dataHash, v.timestamp);
    bytes.Some? && cfg.crypto.verify(cfg.vals[v.index].pubKey, bytes.value, v.signature)
  }

  lemma KnownIsFound(cfg: Config, st: State, v: Vote, w: Vote)
    requires Shaped(cfg, st) && 0 <= v.index < |cfg.vals|
    ensures Found(st, v, w) <==> Known(st, v.index, v.dataHash) == Some(w)
  {
  }

  /** What distinguishes the answers of AddVote from each other: the first check that fails, or none. */
  lemma AnswersExactly(cfg: Config, st: State, v: Vote)
    requires Shaped(cfg, st)
    ensures AddVote(cfg, st, None) == (st, Rejected(NilVote))
    ensures var result := AddVote(cfg, st, Some(v)).1;
      && result != Rejected(NilVote)
      && (result == Rejected(InvalidIndex) <==>
            v.index < 0 || (v.address != [] && v.msgType == cfg.msgType && v.index >= |cfg.vals|))
      && (result == Rejected(UnexpectedStep) <==> v.index >= 0 && v.address != [] && v.msgType != cfg.msgType)
      && (result == Rejected(InvalidAddress) <==>
            || (v.index >= 0 && v.address == [])
            || (0 <= v.index < |cfg.vals| && v.msgType == cfg.msgType && v.address != cfg.vals[v.index].address)
            || (Placed(cfg, v) && (forall w :: !Found(st, v, w)) && !Unseen(cfg, st, v)))
      && (result == Duplicate <==> Placed(cfg, v) && exists w :: Found(st, v, w) && w.signature == v.signature)
      && (result == Rejected(NonDeterministicSignature) <==>
            Placed(cfg, v) && exists w :: Found(st, v, w) && w.signature != v.signature)
      && (result == SignBytesPanic <==>
            Unseen(cfg, st, v)
            && SignBytes(cfg.crypto.times, cfg.chainID, v.msgType, v.dataHash, v.timestamp) == None)
      && (result == Rejected(InvalidSignature) <==>
            Unseen(cfg, st, v) && !SignedBy(cfg, v)
            && SignBytes(cfg.crypto.times, cfg.chainID, v.msgType, v.dataHash, v.timestamp).Some?)
      && (result == Added <==> Unseen(cfg, st, v) && SignedBy(cfg, v) && st.votes[v.index] == None)
      && (result.Conflicting? <==> Unseen(cfg, st, v) && SignedBy(cfg, v) && st.votes[v.index].Some?)
  {
    hide AddVerified, SignBytes, Found, Tracks, Known;
    if 0 <= v.index < |cfg.vals| {
      forall w ensures Found(st, v, w) <==> Known(st, v.index, v.dataHash) == Some(w) {
        KnownIsFound(cfg, st, v, w);
      }
    }
  }

  /**
   * What a vote leaves alone: slots of other validators in every block, other blocks, claims, and, unless this vote
   * makes the majority, the canonical votes of the others. A new majority takes over the votes of its block.
   */
  ghost predicate OthersKept(cfg: Config, st: State, v: Vote, next: State, j: nat, h: Hash)
    requires Shaped(cfg, st) && Shaped(cfg, next) && j < |cfg.vals|
  {
    && next.peers == st.peers
    && (forall w :: InBlock(next, h, j, w) <==> InBlock(st, h, j, w))
    && (h in st.blocks ==> h in next.blocks && next.blocks[h].peerMaj23 == st.blocks[h].peerMaj23)
    && (h != v.dataHash ==>
          (h in next.blocks <==> h in st.blocks) && (h in st.blocks ==> next.blocks[h] == st.blocks[h]))
    && if next.maj23 == st.maj23 then next.votes[j] == st.votes[j]
       else
         && st.maj23 == None && next.maj23 == Some(v.dataHash)
         && next.votes[j] == if v.dataHash in st.blocks && st.blocks[v.dataHash].votes[j].Some?
                             then st.blocks[v.dataHash].votes[j] else st.votes[j]
  }

  lemma CountKeeps(cfg: Config, st: State, v: Vote, i: nat, power: int, j: nat, h: Hash)
    requires Shaped(cfg, st) && i < |cfg.vals| && j < |cfg.vals| && j != i
    ensures Shaped(cfg, Count(cfg, st, v, i, power))
    ensures OthersKept(cfg, st, v, Count(cfg, st, v, i, power), j, h)
  {
    hide Quorum;
    CountShaped(cfg, st, v, i, power);
  }

  lemma PlaceKeeps(cfg: Config, st: State, v: Vote, i: nat, power: int, j: nat)
    requires Shaped(cfg, st) && i < |cfg.vals| && j < |cfg.vals| && j != i
    ensures Shaped(cfg, Place(st, v, i, power)) && Place(st, v, i, power).votes[j] == st.votes[j]
  {
  }

  lemma KeptVia(cfg: Config, st: State, v: Vote, placed: State, next: State, j: nat, h: Hash)
    requires Shaped(cfg, st) && Shaped(cfg, placed) && Shaped(cfg, next) && j < |cfg.vals|
    requires placed.votes[j] == st.votes[j] && placed.blocks == st.blocks
    requires placed.maj23 == st.maj23 && placed.peers == st.peers
    requires next == placed || OthersKept(cfg, placed, v, next, j, h)
    ensures OthersKept(cfg, st, v, next, j, h)
  {
    assert forall w :: InBlock(placed, h, j, w) <==> InBlock(st, h, j, w);
  }

  lemma OthersUntouched(cfg: Config, st: State, v: Vote, j: nat, h: Hash)
    requires Shaped(cfg, st) && j < |cfg.vals| && j != v.index
    ensures Shaped(cfg, AddVote(cfg, st, Some(v)).0)
    ensures OthersKept(cfg, st, v, AddVote(cfg, st, Some(v)).0, j, h)
  {
    hide Refusal, Tracks, Place, Count, OthersKept;
    AddVoteShaped(cfg, st, Some(v));
    var next := AddVote(cfg, st, Some(v)).0;
    if Refusal(cfg, st, Some(v)).Some? {
      KeptVia(cfg, st, v, st, st, j, h);
    } else {
      var i, power := v.index, cfg.vals[v.index].votingPower;
      var placed := Place(st, v, i, power);
      PlaceKeeps(cfg, st, v, i, power, j);
      CountKeeps(cfg, placed, v, i, power, j, h);
      AddVerifiedShaped(cfg, st, v, i);
      var added := AddVerified(cfg, st, v, i);
      KeptVia(cfg, st, v, placed, added, j, h);
      DoneAside(cfg, st, v, added, next, j, h);
    }
  }

  lemma DoneAside(cfg: Config, st: State, v: Vote, added: State, next: State, j: nat, h: Hash)
    requires Shaped(cfg, st) && Shaped(cfg, added) && j < |cfg.vals| && OthersKept(cfg, st, v, added, j, h)
    requires next == added || next == added.(done := true)
    ensures Shaped(cfg, next) && OthersKept(cfg, st, v, next, j, h)
  {
    assert forall w :: InBlock(next, h, j, w) <==> InBlock(added, h, j, w);
  }

  // ---- claims

  /** The first claim of the peer among the calls is for the hash. */
  ghost predicate ClaimedFirst(ops: seq<Op>, peer: PeerID, h: Hash) {
    exists k :: 0 <= k < |ops| && ops[k] == Claim(peer, h) && NoClaimBefore(ops, peer, k)
  }

  ghost predicate NoClaimBefore(ops: seq<Op>, peer: PeerID, k: nat) {
    forall l :: 0 <= l < k && l < |ops| ==> !(ops[l].Claim? && ops[l].peer == peer)
  }

  /** The record of a peer is its first claim in the run. */
  lemma {:induction false} ClaimsRecorded(cfg: Config, ops: seq<Op>, peer: PeerID)
    ensures forall h :: (peer in Run(cfg, ops).peers && Run(cfg, ops).peers[peer] == h) <==> ClaimedFirst(ops, peer, h)
    ensures peer !in Run(cfg, ops).peers <==> NoClaimBefore(ops, peer, |ops|)
  {
    hide AddVote;
    if |ops| > 0 {
      var n := |ops| - 1;
      ClaimsRecorded(cfg, ops[..n], peer);
      PeersStay(cfg, Run(cfg, ops[..n]), ops[n], peer);
      assert NoClaimBefore(ops[..n], peer, n) <==> NoClaimBefore(ops, peer, n);
      forall h ensures ClaimedFirst(ops, peer, h) <==>
        ClaimedFirst(ops[..n], peer, h) || (ops[n] == Claim(peer, h) && NoClaimBefore(ops[..n], peer, n))
      {
        FirstClaims(ops, peer, h);
      }
    }
  }

  lemma FirstClaims(ops: seq<Op>, peer: PeerID, h: Hash)
    requires |ops| > 0
    ensures var n := |ops| - 1;
      ClaimedFirst(ops, peer, h) <==>
        ClaimedFirst(ops[..n], peer, h) || (ops[n] == Claim(peer, h) && NoClaimBefore(ops[..n], peer, n))
  {
    var n := |ops| - 1;
    if ClaimedFirst(ops[..n], peer, h) {
      var k :| 0 <= k < n && ops[..n][k] == Claim(peer, h) && NoClaimBefore(ops[..n], peer, k);
      assert ops[k] == Claim(peer, h) && NoClaimBefore(ops, peer, k);
    }
    if ClaimedFirst(ops, peer, h) {
      var k :| 0 <= k < |ops| && ops[k] == Claim(peer, h) && NoClaimBefore(ops, peer, k);
      assert k < n ==> ops[..n][k] == Claim(peer, h) && NoClaimBefore(ops[..n], peer, k);
    }
    if ops[n] == Claim(peer, h) && NoClaimBefore(ops[..n], peer, n) {
      assert NoClaimBefore(ops, peer, n);
    }
  }

  lemma PeersStay(cfg: Config, st: State, op: Op, peer: PeerID)
    requires Shaped(cfg, st)
    ensures var next := Apply(cfg, st, op);
      if op.Claim? && op.peer == peer && peer !in st.peers then peer in next.peers && next.peers[peer] == op.hash
      else (peer in next.peers <==> peer in st.peers) && (peer in st.peers ==> next.peers[peer] == st.peers[peer])
  {
    hide Refusal, AddVerified;
  }

  /**
   * SetPeerMaj23 in a run: refused exactly if the first claim of the peer was for another hash, and then, as for a
   * repeated claim, nothing changes; a first claim marks its block, adds it empty if there is none, and no more.
   */
  lemma ClaimAnswers(cfg: Config, ops: seq<Op>, peer: PeerID, h: Hash)
    ensures var st := Run(cfg, ops);
      var (next, accepted) := SetPeerMaj23(cfg, st, peer, h);
      && (!accepted <==> exists h' :: h' != h && ClaimedFirst(ops, peer, h'))
      && (!NoClaimBefore(ops, peer, |ops|) ==> next == st)
      && (NoClaimBefore(ops, peer, |ops|) ==>
            && next.peers == st.peers[peer := h] && next.blocks.Keys == st.blocks.Keys + {h}
            && next.blocks[h].peerMaj23
            && (forall b :: b in st.blocks && b != h ==> next.blocks[b] == st.blocks[b])
            && (h in st.blocks ==> next.blocks[h] == st.blocks[h].(peerMaj23 := true))
            && (h !in st.blocks ==> next.blocks[h].sum == 0 && forall j: nat, w :: !InBlock(next, h, j, w))
            && next.votes == st.votes && next.bits == st.bits && next.sum == st.sum
            && next.maj23 == st.maj23 && next.done == st.done)
  {
    hide Run, ClaimedFirst, NoClaimBefore;
    ClaimsRecorded(cfg, ops, peer);
    var st := Run(cfg, ops);
    assert peer in st.peers ==> ClaimedFirst(ops, peer, st.peers[peer]);
  }

  lemma StoresOnly(st: State, next: State)
    requires next == st || next == st.(done := true)
    ensures forall h, j: nat, w :: InBlock(st, h, j, w) ==> InBlock(next, h, j, w)
  {
  }

  /** No sum leaves the total, so the int64 sums of the code are exact. */
  lemma SumsFit(cfg: Config, st: State)
    requires GoodConfig(cfg) && Inv(cfg, st)
    ensures 0 <= st.sum <= TotalPower(cfg.vals) <= MAX_TOTAL_VOTING_POWER
    ensures forall h :: h in st.blocks ==> 0 <= st.blocks[h].sum <= TotalPower(cfg.vals)
  {
    hide VotedPower, TotalPower, Weight, AllStored, BitsMatch, MajorityInv, PeersInv, BoundedInv;
    VotedPowerIsWeight(cfg, st.votes);
    WeightAtMostTotal(cfg.vals, Bits(st.votes));
    forall h | h in st.blocks ensures 0 <= st.blocks[h].sum <= TotalPower(cfg.vals) {
      assert BlockInv(cfg, st.votes, h, st.blocks[h]);
      VotedPowerIsWeight(cfg, st.blocks[h].votes);
      WeightAtMostTotal(cfg.vals, Bits(st.blocks[h].votes));
    }
  }
}
