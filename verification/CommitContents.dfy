/** What a commit contains, signature by signature, and which commits can be turned back into a vote set. */
module CommitContents {
  import opened Options
  import opened Canonical
  import opened Votes
  import opened VoteSets
  import opened VoteSetInvariant
  import opened Tallies
  import opened Commits

  // ---- MakeCommit

  /** The signature that MakeCommit gives for a canonical vote: kept for the majority and for nil, else left out. */
  ghost predicate SigFor(cs: CommitSig, vote: Option<Vote>, maj: Hash) {
    match vote
    case None => cs == CommitSig(FlagAbsent, [], ZERO_TIME, [])
    case Some(v) =>
      if v.dataHash == [] then cs == CommitSig(FlagNil, v.address, v.timestamp, v.signature)
      else if v.dataHash == maj then cs == CommitSig(FlagCommit, v.address, v.timestamp, v.signature)
      else cs == CommitSig(FlagAbsent, [], ZERO_TIME, [])
  }

  /**
   * MakeCommit: panics exactly on a set that is not of precommits, without a majority, or with a vote whose hash is
   * neither empty nor 32 bytes; otherwise the commit is for the majority, with one signature for each validator.
   */
  lemma CommitSpelled(cfg: Config, st: State)
    requires Shaped(cfg, st)
    ensures MakeCommit(cfg, st) == None <==>
      || cfg.msgType != 2 || st.maj23 == None
      || exists i :: 0 <= i < |st.votes| && st.votes[i].Some? && |st.votes[i].value.dataHash| !in {0, 32}
    ensures MakeCommit(cfg, st).Some? ==>
      var c := MakeCommit(cfg, st).value;
      && st.maj23 == Some(c.dataHash) && |c.signatures| == |cfg.vals|
      && forall i :: 0 <= i < |cfg.vals| ==> SigFor(c.signatures[i], st.votes[i], c.dataHash)
  {
  }

  // ---- CommitToVoteSet

  /** The precommit that a signature at position `i` stands for. */
  function VoteFor(c: Commit, i: nat): Vote
    requires i < |c.signatures| <= 0x7FFF_FFFF
  {
    var cs := c.signatures[i];
    Vote(2, if cs.flag == FlagCommit then c.dataHash else [], cs.timestamp, cs.address, i, cs.signature)
  }

  /** The signature is absent, or one that the validator at its position made under its own address. */
  ghost predicate Restorable(cfg: Config, c: Commit, i: nat)
    requires i < |c.signatures| <= 0x7FFF_FFFF
  {
    var cs := c.signatures[i];
    cs.flag == FlagAbsent ||
    (&& !cs.flag.FlagOther? && i < |cfg.vals|
     && cs.address == cfg.vals[i].address == cfg.crypto.addressOf(cfg.vals[i].pubKey) && cs.address != []
     && var v := VoteFor(c, i);
     && var bytes := SignBytes(cfg.crypto.times, cfg.chainID, 2, v.dataHash, v.timestamp);
     && bytes.Some? && cfg.crypto.verify(cfg.vals[i].pubKey, bytes.value, cs.signature))
  }

  /** The votes of the first `k` signatures, by validator. */
  function VotesUpto(cfg: Config, c: Commit, k: nat): (r: Slots)
    requires k <= |c.signatures| <= 0x7FFF_FFFF
    ensures |r| == |cfg.vals|
  {
    seq(|cfg.vals|, i requires 0 <= i < |cfg.vals| =>
      if i < k && c.signatures[i].flag != FlagAbsent then Some(VoteFor(c, i)) else None)
  }

  /** An accepted first vote passed every check. */
  lemma AddedIsStored(cfg: Config, st: State, v: Vote)
    requires Shaped(cfg, st) && AddVote(cfg, st, Some(v)).1 == Added
    ensures 0 <= v.index < |cfg.vals| && Stored(cfg, v.index, v)
  {
    hide Verify, Known, AddVerified;
  }

  lemma RestorableIsStored(cfg: Config, c: Commit, i: nat)
    requires cfg.msgType == PRECOMMIT_TYPE && i < |c.signatures| <= 0x7FFF_FFFF
    requires c.signatures[i].flag != FlagAbsent
    ensures GetVote(c, i) == None <==> c.signatures[i].flag.FlagOther?
    ensures GetVote(c, i).Some? ==> GetVote(c, i).value == VoteFor(c, i)
    ensures Restorable(cfg, c, i) <==> GetVote(c, i).Some? && i < |cfg.vals| && Stored(cfg, i, GetVote(c, i).value)
  {
    hide SignBytes;
  }

  lemma OneRestored(cfg: Config, c: Commit, k: nat)
    requires GoodConfig(cfg) && cfg.msgType == PRECOMMIT_TYPE && k < |c.signatures| <= 0x7FFF_FFFF
    ensures Replay(cfg, c, k, Tally(cfg, VotesUpto(cfg, c, k)))
            == if Restorable(cfg, c, k) then Some(Tally(cfg, VotesUpto(cfg, c, k + 1))) else None
  {
    hide Tally, AddVote, Stored, GoodConfig, GetVote, Restorable, VoteFor;
    var votes := VotesUpto(cfg, c, k);
    if c.signatures[k].flag == FlagAbsent {
      assert VotesUpto(cfg, c, k + 1) == votes;
      AbsentRestorable(cfg, c, k);
    } else {
      RestorableIsStored(cfg, c, k);
      if Restorable(cfg, c, k) {
        assert VotesUpto(cfg, c, k + 1) == votes[k := Some(VoteFor(c, k))];
        TallyStep(cfg, votes, k, VoteFor(c, k));
      } else if GetVote(c, k).Some? && AddVote(cfg, Tally(cfg, votes), GetVote(c, k)).1 == Added {
        VoteIndex(c, k);
        AddedIsStored(cfg, Tally(cfg, votes), VoteFor(c, k));
        assert false;
      }
    }
  }

  lemma AbsentRestorable(cfg: Config, c: Commit, i: nat)
    requires i < |c.signatures| <= 0x7FFF_FFFF && c.signatures[i].flag == FlagAbsent
    ensures Restorable(cfg, c, i)
  {
  }

  lemma VoteIndex(c: Commit, i: nat)
    requires i < |c.signatures| <= 0x7FFF_FFFF
    ensures VoteFor(c, i).index == i
  {
  }

  lemma {:induction false} RestoredUpto(cfg: Config, c: Commit, k: nat)
    requires GoodConfig(cfg) && cfg.msgType == PRECOMMIT_TYPE && k <= |c.signatures| <= 0x7FFF_FFFF
    ensures Replayed(cfg, c, k)
            == if forall i :: 0 <= i < k ==> Restorable(cfg, c, i) then Some(Tally(cfg, VotesUpto(cfg, c, k))) else None
  {
    hide Tally, Replay, Restorable, GoodConfig;
    if k == 0 {
      EmptyTally(cfg);
      assert VotesUpto(cfg, c, 0) == NoVotes(|cfg.vals|);
    } else {
      RestoredUpto(cfg, c, k - 1);
      OneRestored(cfg, c, k - 1);
    }
  }

  /**
   * CommitToVoteSet, of any commit: panics exactly if some signature that is not absent has an unknown flag, stands
   * beyond the set, or is not the validator's under its address; otherwise the set holds exactly the signatures' votes,
   * and its majority is the hash with a quorum among them.
   */
  lemma RestoredExactly(cfg: Config, c: Commit)
    requires GoodConfig(cfg) && cfg.msgType == PRECOMMIT_TYPE && |c.signatures| <= 0x7FFF_FFFF
    ensures CommitToVoteSet(cfg, c).Some? <==> forall i :: 0 <= i < |c.signatures| ==> Restorable(cfg, c, i)
    ensures CommitToVoteSet(cfg, c).Some? ==>
      var st := CommitToVoteSet(cfg, c).value;
      && |st.votes| == |cfg.vals| && st.peers == map[] && st.done == st.maj23.Some?
      && (forall i :: 0 <= i < |cfg.vals| ==>
            st.votes[i]
            == if i < |c.signatures| && c.signatures[i].flag != FlagAbsent then Some(VoteFor(c, i)) else None)
      && st.maj23 == Majority(cfg, st.votes)
  {
    hide Majority, Restorable, GoodConfig, Replayed;
    RestoredUpto(cfg, c, |c.signatures|);
  }
}
