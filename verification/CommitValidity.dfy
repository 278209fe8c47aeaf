/** The commit of a vote set passes the verifiers exactly when its block is not nil. */
module CommitValidity {
  import opened Proposers
  import opened Quorums
  import opened Votes
  import opened VoteSets
  import opened VoteSetInvariant
  import opened Tallies
  import opened Commits
  import Certificates

  /** The reconstructed sign bytes are the ones AddVote checked. */
  lemma SigChecks(cfg: Config, votes: Slots, m: Hash, i: nat)
    requires GoodConfig(cfg) && |votes| == |cfg.vals| && cfg.msgType == PRECOMMIT_TYPE
    requires AllStored(cfg, votes) && WellFormedSlots(votes) && i < |votes|
    ensures var c := Commit(m, CommitSigs(votes, m));
      c.signatures[i].flag != FlagAbsent ==>
        Certificates.CheckSig(cfg.crypto, cfg.chainID, cfg.vals[i].pubKey, c, i) == Certificates.Good
  {
    hide TotalPower, SignBytes;
    SigGivesVote(cfg, votes, m, i);
    var c := Commit(m, CommitSigs(votes, m));
    if c.signatures[i].flag != FlagAbsent {
      assert Stored(cfg, i, votes[i].value);
    }
  }

  /** The signatures for the block are the canonical votes for it, unless the block is nil. */
  lemma ForBlockBits(votes: Slots, m: Hash)
    requires WellFormedSlots(votes)
    ensures var c := Commit(m, CommitSigs(votes, m));
      && (IsComplete(m) ==> Certificates.ForBlock(c) == Bits(Only(Kept(votes, m), m)))
      && (!IsComplete(m) ==> forall i :: 0 <= i < |votes| ==> !Certificates.ForBlock(c)[i])
  {
  }

  /**
   * Every reachable precommit set with a majority yields a commit; VerifyCommit accepts it for the majority hash if
   * and only if that hash is complete, so exactly a commit for nil is turned down.
   */
  lemma CommitCertifies(cfg: Config, st: State)
    requires GoodConfig(cfg) && Inv(cfg, st) && cfg.msgType == PRECOMMIT_TYPE && st.maj23.Some?
    ensures MakeCommit(cfg, st).Some?
    ensures Certificates.Certifies(cfg.crypto, cfg.chainID, cfg.vals, st.maj23.value, MakeCommit(cfg, st).value)
            <==> IsComplete(st.maj23.value)
    ensures Certificates.OwnAddresses(cfg.vals, MakeCommit(cfg, st).value)
  {
    hide Stored, BlocksInv, MajorityInv, PeersInv, BoundedInv, VotedPower, TotalPower, Weight, WellFormedSlots,
         CommitSigs,
         Majority, AllStored, Certificates.CheckSig, Certificates.ForBlock, Kept, Only;
    MakeCommitNeverPanics(cfg, st);
    StoredIsWellFormed(cfg, st.votes);
    var m := st.maj23.value;
    var c := Commit(m, CommitSigs(st.votes, m));
    forall i | 0 <= i < |st.votes| && c.signatures[i].flag != FlagAbsent
      ensures Certificates.CheckSig(cfg.crypto, cfg.chainID, cfg.vals[i].pubKey, c, i) == Certificates.Good
    {
      SigChecks(cfg, st.votes, m, i);
    }
    ForBlockBits(st.votes, m);
    Addresses(cfg, st.votes, m);
    if IsComplete(m) {
      KeptHasQuorum(cfg, st);
      VotedPowerIsWeight(cfg, Only(Kept(st.votes, m), m));
    } else {
      WeightOfNobody(cfg.vals, Certificates.ForBlock(c));
      Certificates.TotalIsNat(cfg.vals);
    }
  }

  lemma Addresses(cfg: Config, votes: Slots, m: Hash)
    requires |votes| == |cfg.vals| && AllStored(cfg, votes) && WellFormedSlots(votes)
    ensures Certificates.OwnAddresses(cfg.vals, Commit(m, CommitSigs(votes, m)))
  {
    hide Verify;
    var c := Commit(m, CommitSigs(votes, m));
    forall i | 0 <= i < |cfg.vals| && Certificates.ForBlock(c)[i]
      ensures c.signatures[i].address == cfg.vals[i].address
    {
      assert Stored(cfg, i, votes[i].value);
    }
  }
}
