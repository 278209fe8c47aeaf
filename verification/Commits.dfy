/** Commits as certificates of a vote set: MakeCommit and its inverse CommitToVoteSet. */
module Commits {
  import opened Options
  import opened Sums
  import opened Proposers
  import opened Votes
  import opened VoteSets
  import opened VoteSetInvariant
  import opened Tallies

  /** One entry of MakeCommit: a vote for another block counts as absent. */
  function SigOf(vote: Option<Vote>, maj23: Hash): CommitSig
    requires vote.Some? ==> ValidHash(vote.value.dataHash)
  {
    var cs := ToCommitSig(vote);
    if cs.flag == FlagCommit && vote.value.dataHash != maj23 then ABSENT_SIG else cs
  }

  predicate WellFormedSlots(votes: Slots) {
    forall i :: 0 <= i < |votes| && votes[i].Some? ==> ValidHash(votes[i].value.dataHash)
  }

  function CommitSigs(votes: Slots, maj23: Hash): (r: seq<CommitSig>)
    requires WellFormedSlots(votes)
    ensures |r| == |votes|
  {
    seq(|votes|, i requires 0 <= i < |votes| => SigOf(votes[i], maj23))
  }

  /** MakeCommit; None is one of its panics: the wrong type, no majority, a malformed hash. */
  function MakeCommit(cfg: Config, st: State): Option<Commit> {
    if cfg.msgType != PRECOMMIT_TYPE || st.maj23.None? || !WellFormedSlots(st.votes) then None
    else Some(Commit(st.maj23.value, CommitSigs(st.votes, st.maj23.value)))
  }

  /** Every stored vote went through CanonicalizeDataHash, which lets only empty and complete hashes pass. */
  lemma StoredIsWellFormed(cfg: Config, votes: Slots)
    requires |votes| == |cfg.vals| && AllStored(cfg, votes)
    ensures WellFormedSlots(votes)
  {
    forall i | 0 <= i < |votes| && votes[i].Some? ensures ValidHash(votes[i].value.dataHash) {
      assert Stored(cfg, i, votes[i].value);
    }
  }

  /** A precommit set with a majority always yields its commit. */
  lemma MakeCommitNeverPanics(cfg: Config, st: State)
    requires Inv(cfg, st)
    ensures MakeCommit(cfg, st).Some? <==> cfg.msgType == PRECOMMIT_TYPE && st.maj23.Some?
  {
    hide Stored, BlocksInv, MajorityInv, PeersInv, BoundedInv, VotedPower;
    StoredIsWellFormed(cfg, st.votes);
  }

  // ---- the inverse

  /** The vote set after the first k signatures; None is a panic of CommitToVoteSet. */
  ghost function Replayed(cfg: Config, c: Commit, k: nat): (r: Option<State>)
    requires k <= |c.signatures| <= 0x7FFF_FFFF
    ensures r.Some? ==> Shaped(cfg, r.value)
  {
    if k == 0 then Some(NewState(cfg))
    else
      match Replayed(cfg, c, k - 1)
      case None => None
      case Some(st) => Replay(cfg, c, k - 1, st)
  }

  ghost function Replay(cfg: Config, c: Commit, i: nat, st: State): (r: Option<State>)
    requires i < |c.signatures| <= 0x7FFF_FFFF && Shaped(cfg, st)
    ensures r.Some? ==> Shaped(cfg, r.value)
  {
    if c.signatures[i].flag == FlagAbsent then Some(st)
    else
      match GetVote(c, i)
      case None => None
      case Some(v) =>
        AddVoteShaped(cfg, st, Some(v));
        var (next, result) := AddVote(cfg, st, Some(v));
        if result == Added then Some(next) else None
  }

  ghost function CommitToVoteSet(cfg: Config, c: Commit): Option<State>
    requires |c.signatures| <= 0x7FFF_FFFF
  {
    Replayed(cfg, c, |c.signatures|)
  }

  // ---- the round trip

  /** The votes a commit gives back: those for its block and those for nil. */
  function Kept(votes: Slots, m: Hash): (r: Slots)
    ensures |r| == |votes|
  {
    seq(|votes|, i requires 0 <= i < |votes| =>
      if votes[i].Some? && IsComplete(votes[i].value.dataHash) && votes[i].value.dataHash != m then None else votes[i])
  }

  /** A prefix of the slots, the rest empty. */
  function Upto(votes: Slots, k: nat): (r: Slots)
    ensures |r| == |votes|
  {
    seq(|votes|, i requires 0 <= i < |votes| => if i < k then votes[i] else None)
  }

  /** Each signature leads back to the vote it came from. */
  lemma SigGivesVote(cfg: Config, votes: Slots, m: Hash, i: nat)
    requires |votes| == |cfg.vals| <= 0x7FFF_FFFF && cfg.msgType == PRECOMMIT_TYPE && AllStored(cfg, votes)
    requires WellFormedSlots(votes) && i < |votes|
    ensures var c := Commit(m, CommitSigs(votes, m));
      if Kept(votes, m)[i] == None then c.signatures[i].flag == FlagAbsent
      else c.signatures[i].flag != FlagAbsent && GetVote(c, i) == Kept(votes, m)[i]
  {
    hide Verify;
    if votes[i].Some? {
      assert Stored(cfg, i, votes[i].value);
    }
  }

  lemma ReplayStep(cfg: Config, votes: Slots, m: Hash, k: nat)
    requires GoodConfig(cfg) && |votes| == |cfg.vals| && cfg.msgType == PRECOMMIT_TYPE && AllStored(cfg, votes)
    requires WellFormedSlots(votes) && k < |votes|
    ensures Replay(cfg, Commit(m, CommitSigs(votes, m)), k, Tally(cfg, Upto(Kept(votes, m), k)))
            == Some(Tally(cfg, Upto(Kept(votes, m), k + 1)))
  {
    hide Tally, AddVote, VotedPower, Stored, TotalPower;
    SigGivesVote(cfg, votes, m, k);
    var kept := Kept(votes, m);
    if kept[k] == None {
      assert Upto(kept, k + 1) == Upto(kept, k);
    } else {
      assert Upto(kept, k + 1) == Upto(kept, k)[k := kept[k]];
      TallyStep(cfg, Upto(kept, k), k, kept[k].value);
    }
  }

  lemma {:induction false} ReplayedIsTally(cfg: Config, votes: Slots, m: Hash, k: nat)
    requires GoodConfig(cfg) && |votes| == |cfg.vals| && cfg.msgType == PRECOMMIT_TYPE && AllStored(cfg, votes)
    requires WellFormedSlots(votes) && k <= |votes|
    ensures Replayed(cfg, Commit(m, CommitSigs(votes, m)), k) == Some(Tally(cfg, Upto(Kept(votes, m), k)))
  {
    hide Tally, Replay, AllStored, WellFormedSlots;
    if k == 0 {
      EmptyTally(cfg);
      assert Upto(Kept(votes, m), 0) == NoVotes(|cfg.vals|);
    } else {
      ReplayedIsTally(cfg, votes, m, k - 1);
      ReplayStep(cfg, votes, m, k - 1);
    }
  }

  /** The kept votes still hold the quorum of the majority block. */
  lemma KeptHasQuorum(cfg: Config, st: State)
    requires GoodConfig(cfg) && Inv(cfg, st) && st.maj23.Some?
    ensures Majority(cfg, Kept(st.votes, st.maj23.value)) == st.maj23
  {
    hide Stored, TotalPower, PeersInv, BoundedInv, AllStored, BitsMatch, Quorum;
    var m := st.maj23.value;
    var kept := Kept(st.votes, m);
    assert BlockInv(cfg, st.votes, m, st.blocks[m]);
    SumMonotone(SlotPowers(cfg, st.blocks[m].votes), SlotPowers(cfg, Only(kept, m)));
    assert Quorate(cfg, kept, m);
    OneMajority(cfg, kept, m, Majority(cfg, kept).value);
  }

  lemma SameSigs(votes: Slots, m: Hash)
    requires WellFormedSlots(votes)
    ensures WellFormedSlots(Kept(votes, m)) && CommitSigs(Kept(votes, m), m) == CommitSigs(votes, m)
  {
  }

  /** CommitToVoteSet undoes MakeCommit: it never panics, finds the same majority and gives the same commit. */
  lemma CommitRoundTrip(cfg: Config, st: State)
    requires GoodConfig(cfg) && Inv(cfg, st) && cfg.msgType == PRECOMMIT_TYPE && st.maj23.Some?
    ensures MakeCommit(cfg, st).Some?
    ensures var c := MakeCommit(cfg, st).value;
      && |c.signatures| == |cfg.vals|
      && var back := CommitToVoteSet(cfg, c);
      && back.Some? && back.value.maj23 == st.maj23 && back.value.done
      && MakeCommit(cfg, back.value) == Some(c)
  {
    hide Stored, BlocksInv, MajorityInv, PeersInv, BoundedInv, VotedPower, Replayed, Majority, CommitSigs,
         WellFormedSlots,
         GoodConfig;
    MakeCommitNeverPanics(cfg, st);
    var m, n := st.maj23.value, |st.votes|;
    StoredIsWellFormed(cfg, st.votes);
    ConfigSize(cfg);
    ReplayedIsTally(cfg, st.votes, m, n);
    assert Upto(Kept(st.votes, m), n) == Kept(st.votes, m);
    KeptHasQuorum(cfg, st);
    SameSigs(st.votes, m);
  }

  lemma ConfigSize(cfg: Config)
    requires GoodConfig(cfg)
    ensures |cfg.vals| <= 0x7FFF_FFFF
  {
  }

  /** The round trip from every reachable state. */
  lemma ReachableRoundTrip(cfg: Config, ops: seq<Op>)
    requires GoodConfig(cfg) && cfg.msgType == PRECOMMIT_TYPE && Run(cfg, ops).maj23.Some?
    ensures MakeCommit(cfg, Run(cfg, ops)).Some?
    ensures var c := MakeCommit(cfg, Run(cfg, ops)).value;
      && |c.signatures| == |cfg.vals|
      && var back := CommitToVoteSet(cfg, c);
      back.Some? && back.value.maj23 == Run(cfg, ops).maj23 && MakeCommit(cfg, back.value) == Some(c)
  {
    hide Inv, MakeCommit, CommitToVoteSet;
    RunInv(cfg, ops);
    CommitRoundTrip(cfg, Run(cfg, ops));
  }
}
