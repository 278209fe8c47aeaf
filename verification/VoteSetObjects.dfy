/** The mutable vote set, each method proved against the transitions on values. */
module VoteSetObjects {
  import opened Options
  import opened Proposers
  import opened Votes
  import opened VoteSets
  import opened Commits

  /** blockVotes. */
  class BlockTally {
    var peerMaj23: bool
    var bitArray: seq<bool>
    var votes: Slots
    var sum: int

    ghost function Value(): BlockVotes
      reads this
    {
      BlockVotes(peerMaj23, bitArray, votes, sum)
    }

    constructor (peerMaj23: bool, numValidators: nat)
      ensures Value() == NewBlock(peerMaj23, numValidators)
    {
      this.peerMaj23 := peerMaj23;
      this.bitArray := NoBits(numValidators);
      this.votes := NoVotes(numValidators);
      this.sum := 0;
    }

    method AddVerifiedVote(vote: Vote, votingPower: int)
      requires 0 <= vote.index < |votes| == |bitArray|
      modifies this
      ensures Value() == BlockAdd(old(Value()), vote, vote.index, votingPower)
    {
      var valIndex := vote.index;
      if votes[valIndex] == None {
        bitArray := bitArray[valIndex := true];
        votes := votes[valIndex := Some(vote)];
        sum := sum + votingPower;
      }
    }
  }

  class VoteSet {
    const config: Config
    var votesBitArray: seq<bool>
    var votes: Slots
    var sum: int
    var maj23: Option<Hash>
    var votesByBlock: map<Hash, BlockTally>
    var peerMaj23s: map<PeerID, Hash>
    var done: bool

    ghost function Blocks(): (r: map<Hash, BlockVotes>)
      reads this, votesByBlock.Values
    {
      map h | h in votesByBlock :: votesByBlock[h].Value()
    }

    ghost function Snapshot(): State
      reads this, votesByBlock.Values
    {
      State(votesBitArray, votes, sum, maj23, Blocks(), peerMaj23s, done)
    }

    /** No block object is shared, and every list has one slot per validator. */
    ghost predicate Valid()
      reads this, votesByBlock.Values
    {
      && (forall h, k :: h in votesByBlock && k in votesByBlock && h != k ==> votesByBlock[h] != votesByBlock[k])
      && Shaped(config, Snapshot())
    }

    constructor (config: Config)
      ensures Valid() && this.config == config && Snapshot() == NewState(config) && votesByBlock == map[]
    {
      this.config := config;
      this.votesBitArray := NoBits(|config.vals|);
      this.votes := NoVotes(|config.vals|);
      this.sum := 0;
      this.maj23 := None;
      this.votesByBlock := map[];
      this.peerMaj23s := map[];
      this.done := false;
    }

    method GetVote(valIndex: nat, blockKey: Hash) returns (vote: Option<Vote>)
      requires Valid() && valIndex < |config.vals|
      ensures vote == Known(Snapshot(), valIndex, blockKey)
    {
      if votes[valIndex].Some? && votes[valIndex].value.dataHash == blockKey {
        return votes[valIndex];
      }
      if blockKey in votesByBlock {
        assert blockKey in Blocks();
        return votesByBlock[blockKey].votes[valIndex];
      }
      return None;
    }

    method AddVerifiedVote(vote: Vote, blockKey: Hash, votingPower: int)
      returns (added: bool, conflicting: Option<Vote>)
      requires Valid() && 0 <= vote.index < |config.vals| && blockKey == vote.dataHash
      requires votingPower == config.vals[vote.index].votingPower as int
      requires Known(Snapshot(), vote.index, blockKey) == None
      modifies this, votesByBlock.Values
      ensures Valid() && fresh(votesByBlock.Values - old(votesByBlock.Values))
      ensures Snapshot() == AddVerified(config, old(Snapshot()), vote, vote.index)
      ensures added == Tracks(old(Snapshot()), vote, vote.index) && conflicting == old(votes)[vote.index]
    {
      hide Quorum, BlockAdd, Place, Count, TotalPower;
      ghost var st := Snapshot();
      conflicting := PlaceVote(vote, blockKey, votingPower);
      if blockKey in votesByBlock {
        assert blockKey in Blocks();
        if conflicting.Some? && !votesByBlock[blockKey].peerMaj23 {
          return false, conflicting;
        }
      } else if conflicting.Some? {
        return false, conflicting;
      }
      CountVote(vote, votingPower);
      added := true;
    }

    /** The first half of addVerifiedVote: the canonical list. The duplicate panic is the dead branch. */
    method PlaceVote(vote: Vote, blockKey: Hash, votingPower: int) returns (conflicting: Option<Vote>)
      requires Valid() && 0 <= vote.index < |config.vals| && blockKey == vote.dataHash
      requires Known(Snapshot(), vote.index, blockKey) == None
      modifies this
      ensures Valid() && votesByBlock == old(votesByBlock) && conflicting == old(votes)[vote.index]
      ensures Snapshot() == Place(old(Snapshot()), vote, vote.index, votingPower)
    {
      hide Quorum, BlockAdd, Count;
      ghost var blocks := Blocks();
      var valIndex := vote.index;
      conflicting := votes[valIndex];
      if conflicting.Some? {
        if conflicting.value.dataHash == vote.dataHash {
          assert false;
        }
        if maj23.Some? && maj23.value == blockKey {
          votes := votes[valIndex := Some(vote)];
          votesBitArray := votesBitArray[valIndex := true];
        }
      } else {
        votes := votes[valIndex := Some(vote)];
        votesBitArray := votesBitArray[valIndex := true];
        sum := sum + votingPower;
      }
      assert Blocks() == blocks;
    }

    /** The second half of addVerifiedVote, once the block is to be tracked. */
    method CountVote(vote: Vote, votingPower: int)
      requires Valid() && 0 <= vote.index < |config.vals|
      modifies this, votesByBlock.Values
      ensures Valid() && fresh(votesByBlock.Values - old(votesByBlock.Values))
      ensures Snapshot() == Count(config, old(Snapshot()), vote, vote.index, votingPower)
    {
      hide Quorum, BlockAdd, NewBlock, CopyOver, Count, Shaped, AddVerified, Place;
      ghost var st := Snapshot();
      var block := BlockFor(vote.dataHash);
      var origSum := block.sum;
      ghost var before := block.Value();
      var quorum := Quorum(config);
      AddToBlock(block, vote, votingPower);
      CountUnfolds(config, st, vote, vote.index, votingPower, before, block.Value());
      if origSum < quorum && quorum <= block.sum && maj23.None? {
        ReachMajority(vote.dataHash, block);
      }
    }

    method ReachMajority(blockKey: Hash, block: BlockTally)
      requires Valid() && |block.votes| == |votes|
      modifies this
      ensures Valid() && votesByBlock == old(votesByBlock)
      ensures Snapshot() == old(Snapshot()).(maj23 := Some(blockKey), votes := CopyOver(old(votes), block.votes))
    {
      hide CopyOver;
      ghost var blocks := Blocks();
      var copied := CopyVotes(votes, block.votes);
      votes, maj23 := copied, Some(blockKey);
      assert Blocks() == blocks;
    }

    /** The tracked block, created when it is not there. */
    method BlockFor(blockKey: Hash) returns (block: BlockTally)
      requires Valid()
      modifies this
      ensures Valid() && votesByBlock.Values == old(votesByBlock.Values) + {block}
      ensures fresh(votesByBlock.Values - old(votesByBlock.Values))
      ensures blockKey in votesByBlock && votesByBlock[blockKey] == block
      ensures |block.votes| == |block.bitArray| == |config.vals|
      ensures var st := old(Snapshot());
        var before := if blockKey in st.blocks then st.blocks[blockKey] else NewBlock(false, |config.vals|);
        block.Value() == before && Snapshot() == st.(blocks := st.blocks[blockKey := before])
    {
      hide Quorum, TotalPower;
      ghost var st := Snapshot();
      if blockKey in votesByBlock {
        assert blockKey in st.blocks;
        block := votesByBlock[blockKey];
        assert Blocks() == st.blocks[blockKey := block.Value()];
      } else {
        block := Track(blockKey, false);
      }
    }

    /** A new block object under a new key. */
    method Track(blockKey: Hash, peerMaj23: bool) returns (block: BlockTally)
      requires Valid() && blockKey !in votesByBlock
      modifies this
      ensures Valid() && fresh(block) && votesByBlock.Values == old(votesByBlock.Values) + {block}
      ensures blockKey in votesByBlock && votesByBlock[blockKey] == block
      ensures |block.votes| == |block.bitArray| == |config.vals| && block.Value() == NewBlock(peerMaj23, |config.vals|)
      ensures var st := old(Snapshot());
        Snapshot() == st.(blocks := st.blocks[blockKey := NewBlock(peerMaj23, |config.vals|)])
    {
      ghost var st := Snapshot();
      block := new BlockTally(peerMaj23, |config.vals|);
      NewValue(votesByBlock, blockKey, block);
      votesByBlock := votesByBlock[blockKey := block];
      assert Blocks() == st.blocks[blockKey := block.Value()];
    }

    method AddToBlock(block: BlockTally, vote: Vote, votingPower: int)
      requires Valid() && 0 <= vote.index < |config.vals|
      requires vote.dataHash in votesByBlock && votesByBlock[vote.dataHash] == block
      requires |block.votes| == |block.bitArray| == |config.vals|
      modifies block
      ensures Valid() && |block.votes| == |votes|
      ensures var st := old(Snapshot());
        && block.Value() == BlockAdd(old(block.Value()), vote, vote.index, votingPower)
        && Snapshot() == st.(blocks := st.blocks[vote.dataHash := block.Value()])
    {
      hide Quorum, BlockAdd;
      ghost var st := Snapshot();
      block.AddVerifiedVote(vote, votingPower);
      assert Blocks() == st.blocks[vote.dataHash := block.Value()];
    }

    /** Both panics of the call chain are dead branches; only a time without encoding can still panic. */
    method AddVote(vote: Option<Vote>) returns (result: AddResult)
      requires Valid()
      modifies this, votesByBlock.Values
      ensures Valid() && fresh(votesByBlock.Values - old(votesByBlock.Values))
      ensures (Snapshot(), result) == VoteSets.AddVote(config, old(Snapshot()), vote)
    {
      hide AddVerified, Verify;
      if vote.None? {
        return Rejected(NilVote);
      }
      var v := vote.value;
      if v.index < 0 {
        return Rejected(InvalidIndex);
      } else if |v.address| == 0 {
        return Rejected(InvalidAddress);
      }
      if v.msgType != config.msgType {
        return Rejected(UnexpectedStep);
      }
      if v.index >= |config.vals| {
        return Rejected(InvalidIndex);
      }
      var val := config.vals[v.index];
      if v.address != val.address {
        return Rejected(InvalidAddress);
      }
      var existing := GetVote(v.index, v.dataHash);
      if existing.Some? {
        if existing.value.signature == v.signature {
          return Duplicate;
        }
        return Rejected(NonDeterministicSignature);
      }
      match Verify(config.crypto, config.chainID, val.pubKey, v) {
        case WrongAddress => return Rejected(InvalidAddress);
        case WrongSignature => return Rejected(InvalidSignature);
        case CannotEncode => return SignBytesPanic;
        case Valid =>
      }
      var added, conflicting := AddVerifiedVote(v, v.dataHash, val.votingPower);
      if conflicting.Some? {
        return Conflicting(added, conflicting.value);
      }
      if !added {
        assert false;
      }
      if maj23.Some? {
        ghost var blocks := Blocks();
        done := true;
        assert Blocks() == blocks;
      }
      return Added;
    }

    method SetPeerMaj23(peerID: PeerID, blockID: Hash) returns (ok: bool)
      requires Valid()
      modifies this, votesByBlock.Values
      ensures Valid() && fresh(votesByBlock.Values - old(votesByBlock.Values))
      ensures (Snapshot(), ok) == VoteSets.SetPeerMaj23(config, old(Snapshot()), peerID, blockID)
    {
      if peerID in peerMaj23s {
        return peerMaj23s[peerID] == blockID;
      }
      ghost var st := Snapshot();
      peerMaj23s := peerMaj23s[peerID := blockID];
      assert Blocks() == st.blocks;
      if blockID in votesByBlock {
        MarkBlock(blockID);
      } else {
        var _ := Track(blockID, true);
      }
      return true;
    }

    method MarkBlock(blockID: Hash)
      requires Valid() && blockID in votesByBlock
      modifies votesByBlock[blockID]
      ensures Valid()
      ensures var st := old(Snapshot());
        && blockID in st.blocks
        && Snapshot() == st.(blocks := st.blocks[blockID := st.blocks[blockID].(peerMaj23 := true)])
    {
      hide Quorum, TotalPower, NewState, NewBlock;
      ghost var st := Snapshot();
      var block := votesByBlock[blockID];
      if !block.peerMaj23 {
        block.peerMaj23 := true;
      }
      assert Blocks() == st.blocks[blockID := st.blocks[blockID].(peerMaj23 := true)];
    }

    /** None is one of the panics. */
    method MakeCommit() returns (commit: Option<Commit>)
      requires Valid()
      ensures commit == Commits.MakeCommit(config, Snapshot())
    {
      if config.msgType != PRECOMMIT_TYPE || maj23.None? {
        return None;
      }
      var commitSigs := new CommitSig[|votes|];
      for i := 0 to |votes|
        invariant forall j :: 0 <= j < i && votes[j].Some? ==> ValidHash(votes[j].value.dataHash)
        invariant forall j :: 0 <= j < i ==> commitSigs[j] == SigOf(votes[j], maj23.value)
      {
        var v := votes[i];
        if v.Some? && !ValidHash(v.value.dataHash) {
          return None;
        }
        var commitSig := ToCommitSig(v);
        if commitSig.flag == FlagCommit && v.value.dataHash != maj23.value {
          commitSig := ABSENT_SIG;
        }
        commitSigs[i] := commitSig;
      }
      assert commitSigs[..] == CommitSigs(votes, maj23.value);
      return Some(Commit(maj23.value, commitSigs[..]));
    }
  }

  lemma NewValue<K, V>(m: map<K, V>, k: K, v: V)
    requires k !in m
    ensures m[k := v].Values == m.Values + {v}
  {
    forall w | w in m.Values ensures w in m[k := v].Values {
      var j :| j in m && m[j] == w;
      assert j in m[k := v] && m[k := v][j] == w;
    }
    assert k in m[k := v] && m[k := v][k] == v;
  }

  lemma CountUnfolds(cfg: Config, st: State, v: Vote, i: nat, power: int, before: BlockVotes, block: BlockVotes)
    requires Shaped(cfg, st) && i < |cfg.vals|
    requires before == if v.dataHash in st.blocks then st.blocks[v.dataHash] else NewBlock(false, |cfg.vals|)
    requires block == BlockAdd(before, v, i, power)
    ensures var counted := st.(blocks := st.blocks[v.dataHash := before][v.dataHash := block]);
      Count(cfg, st, v, i, power)
      == if before.sum < Quorum(cfg) <= block.sum && st.maj23 == None
         then counted.(maj23 := Some(v.dataHash), votes := CopyOver(st.votes, block.votes))
         else counted
  {
    hide Quorum, BlockAdd, NewBlock, CopyOver;
    assert st.blocks[v.dataHash := before][v.dataHash := block] == st.blocks[v.dataHash := block];
  }

  method CopyVotes(votes: Slots, from: Slots) returns (copied: Slots)
    requires |votes| == |from|
    ensures copied == CopyOver(votes, from)
  {
    copied := votes;
    for i := 0 to |from|
      invariant |copied| == |votes|
      invariant forall j :: 0 <= j < i ==> copied[j] == CopyOver(votes, from)[j]
      invariant forall j :: i <= j < |votes| ==> copied[j] == votes[j]
    {
      if from[i].Some? {
        copied := copied[i := from[i]];
      }
    }
  }

  /** CommitToVoteSet; no result means it panicked. */
  method CommitToVoteSet(config: Config, commit: Commit) returns (voteSet: VoteSet?)
    requires |commit.signatures| <= 0x7FFF_FFFF
    ensures (voteSet != null) == Commits.CommitToVoteSet(config, commit).Some?
    ensures voteSet != null ==> voteSet.Valid() && voteSet.config == config
                                && Some(voteSet.Snapshot()) == Commits.CommitToVoteSet(config, commit)
  {
    hide VoteSets.AddVote;
    var reconstructed := new VoteSet(config);
    for idx := 0 to |commit.signatures|
      invariant reconstructed.Valid() && reconstructed.config == config
      invariant fresh(reconstructed) && fresh(reconstructed.votesByBlock.Values)
      invariant Replayed(config, commit, idx) == Some(reconstructed.Snapshot())
    {
      if commit.signatures[idx].flag == FlagAbsent {
        continue;
      }
      var vote := Votes.GetVote(commit, idx);
      if vote.None? {
        ReplayStuck(config, commit, idx + 1);
        return null;
      }
      var result := reconstructed.AddVote(vote);
      if result != Added {
        ReplayStuck(config, commit, idx + 1);
        return null;
      }
    }
    return reconstructed;
  }

  /** A panic ends the reconstruction. */
  lemma {:induction false} ReplayStuck(cfg: Config, c: Commit, k: nat)
    requires k <= |c.signatures| <= 0x7FFF_FFFF && Replayed(cfg, c, k) == None
    ensures Commits.CommitToVoteSet(cfg, c) == None
    decreases |c.signatures| - k
  {
    hide Replay;
    if k < |c.signatures| {
      ReplayStuck(cfg, c, k + 1);
    }
  }
}
