/** Canonical votes that no block holds: when they appear, that they stay, and an input that makes one. */
module StrayVotes {
  import opened Options
  import opened Sums
  import opened Proposers
  import opened Canonical
  import opened Votes
  import opened VoteSets
  import opened VoteSetInvariant
  import opened VoteOrigins
  import opened Tallies
  import opened Signals

  /** The canonical vote of validator `j` is missing from its block. */
  ghost predicate Stray(st: State, j: nat) {
    j < |st.votes| && st.votes[j].Some? && !InBlock(st, st.votes[j].value.dataHash, j, st.votes[j].value)
  }

  /** The guard: a conflicting vote of `j` for the majority, which nobody claimed. */
  ghost predicate Strays(cfg: Config, st: State, vote: Option<Vote>, j: nat)
    requires Shaped(cfg, st)
  {
    && Accepts(cfg, st, vote) && vote.value.index == j && st.votes[j].Some?
    && st.maj23 == Some(vote.value.dataHash)
    && vote.value.dataHash in st.blocks && !st.blocks[vote.value.dataHash].peerMaj23
  }

  /** A stray vote is for the majority, and its slot in the block is empty. */
  lemma StrayIsForMajority(cfg: Config, st: State, j: nat)
    requires Inv(cfg, st) && j < |st.votes|
    ensures Stray(st, j) <==>
      && st.votes[j].Some? && st.votes[j].value.dataHash in st.blocks
      && st.blocks[st.votes[j].value.dataHash].votes[j] == None
    ensures Stray(st, j) ==> st.maj23 == Some(st.votes[j].value.dataHash)
  {
    hide Stored, BlocksInv, PeersInv, BoundedInv, MajorityInv, VotedPower, AllStored, BitsMatch;
  }

  /** What an accepted vote does to the slots of the canonical list and of its block. */
  lemma SlotsAfter(cfg: Config, st: State, v: Vote, next: State, j: nat)
    requires Inv(cfg, st) && Accepts(cfg, st, Some(v)) && next == AddVerified(cfg, st, v, v.index) && j < |st.votes|
    requires Shaped(cfg, next)
    ensures forall h :: h in st.blocks && h != v.dataHash ==> h in next.blocks && next.blocks[h] == st.blocks[h]
    ensures !Tracks(st, v, v.index) ==> next.blocks == st.blocks && next.maj23 == st.maj23
    ensures Tracks(st, v, v.index) ==>
      && v.dataHash in next.blocks
      && next.blocks[v.dataHash].votes[j]
         == if j == v.index then Some(v) else if v.dataHash in st.blocks then st.blocks[v.dataHash].votes[j] else None
    ensures var placed := if j == v.index && (st.votes[j].None? || st.maj23 == Some(v.dataHash))
                      then Some(v) else st.votes[j];
      if st.maj23 == None && next.maj23.Some? && next.blocks[v.dataHash].votes[j].Some?
      then next.maj23 == Some(v.dataHash) && next.votes[j] == next.blocks[v.dataHash].votes[j]
      else next.votes[j] == placed
  {
    hide Stored, VotesInv, BlocksInv, MajorityInv, PeersInv, BoundedInv, Quorum;
  }

  /** One call: strays stay, and the guard decides about new ones. */
  lemma StrayAfterVote(cfg: Config, st: State, v: Vote, j: nat)
    requires Inv(cfg, st) && Accepts(cfg, st, Some(v)) && j < |st.votes|
    ensures Stray(AddVerified(cfg, st, v, v.index), j) <==> Stray(st, j) || Strays(cfg, st, Some(v), j)
  {
    hide Stored, BlocksInv, PeersInv, BoundedInv, Quorum, AddVerified, AllStored, BitsMatch, VotedPower;
    var next := AddVerified(cfg, st, v, v.index);
    AddVerifiedShaped(cfg, st, v, v.index);
    SlotsAfter(cfg, st, v, next, j);
    StrayIsForMajority(cfg, st, j);
    SlotsOfBlocks(cfg, st);
  }

  /** Every call of AddVote: strays stay, and a new one appears exactly under the guard. */
  lemma StrayExactly(cfg: Config, st: State, vote: Option<Vote>, j: nat)
    requires Inv(cfg, st) && j < |st.votes|
    ensures Stray(AddVote(cfg, st, vote).0, j) <==> Stray(st, j) || Strays(cfg, st, vote, j)
  {
    hide AddVerified, Refusal, Inv, Known, Good, Tracks;
    assert Shaped(cfg, st) by { InvShaped(cfg, st); }
    RefusalExactly(cfg, st, vote);
    if Accepts(cfg, st, vote) {
      StrayAfterVote(cfg, st, vote.value, j);
    }
  }

  lemma InvShaped(cfg: Config, st: State)
    requires Inv(cfg, st)
    ensures Shaped(cfg, st)
  {
  }

  lemma StrayAfterClaim(cfg: Config, st: State, peer: PeerID, h: Hash, j: nat)
    requires Inv(cfg, st) && j < |st.votes|
    ensures Stray(SetPeerMaj23(cfg, st, peer, h).0, j) <==> Stray(st, j)
  {
    hide Stored, BlocksInv, PeersInv, BoundedInv, MajorityInv, AllStored, BitsMatch, VotedPower;
  }

  // ---- whole runs

  ghost predicate StraysAt(cfg: Config, ops: seq<Op>, k: nat, j: nat) {
    k < |ops| && ops[k].Add? && Strays(cfg, Run(cfg, ops[..k]), ops[k].vote, j)
  }

  lemma LastCall(cfg: Config, ops: seq<Op>, j: nat)
    requires GoodConfig(cfg) && |ops| > 0 && j < |cfg.vals|
    ensures Stray(Run(cfg, ops), j) <==> Stray(Run(cfg, ops[..|ops| - 1]), j) || StraysAt(cfg, ops, |ops| - 1, j)
  {
    hide AddVote, SetPeerMaj23, Inv, GoodConfig, Stray, Strays;
    var n := |ops| - 1;
    var st := Run(cfg, ops[..n]);
    RunInv(cfg, ops[..n]);
    match ops[n] {
      case Add(vote) => StrayExactly(cfg, st, vote, j);
      case Claim(peer, h) => StrayAfterClaim(cfg, st, peer, h, j);
    }
  }

  lemma EarlierStrays(cfg: Config, ops: seq<Op>, front: seq<Op>, j: nat)
    requires |ops| > 0 && front == ops[..|ops| - 1]
    ensures forall k: nat :: k < |front| ==> StraysAt(cfg, front, k, j) == StraysAt(cfg, ops, k, j)
    ensures forall k: nat :: k >= |front| ==> !StraysAt(cfg, front, k, j)
    ensures forall k: nat :: k >= |ops| ==> !StraysAt(cfg, ops, k, j)
  {
    hide Run, Strays;
    forall k: nat | k < |front| ensures front[..k] == ops[..k] {
    }
  }

  /** In every run a canonical vote is missing from its block exactly if some call met the guard. */
  lemma {:induction false} StrayRuns(cfg: Config, ops: seq<Op>, j: nat)
    requires GoodConfig(cfg) && j < |cfg.vals|
    ensures Stray(Run(cfg, ops), j) <==> exists k: nat :: StraysAt(cfg, ops, k, j)
  {
    hide Run, GoodConfig, StraysAt, Stray;
    if |ops| == 0 {
      NoStrayYet(cfg, ops, j);
    } else {
      var front := ops[..|ops| - 1];
      StrayRuns(cfg, front, j);
      LastCall(cfg, ops, j);
      EarlierStrays(cfg, ops, front, j);
      if k: nat :| StraysAt(cfg, ops, k, j) {
        assert k < |front| ==> StraysAt(cfg, front, k, j);
      }
      if k: nat :| StraysAt(cfg, front, k, j) {
        assert StraysAt(cfg, ops, k, j);
      }
    }
  }

  lemma NoStrayYet(cfg: Config, ops: seq<Op>, j: nat)
    requires |ops| == 0
    ensures !Stray(Run(cfg, ops), j) && forall k: nat :: !StraysAt(cfg, ops, k, j)
  {
  }

  // ---- an input that does it

  const QUARTET: Config := Config([], PREVOTE_TYPE,
    [Proposer([0], [0], 1, 0), Proposer([1], [1], 1, 0), Proposer([2], [2], 1, 0), Proposer([3], [3], 1, 0)], GULLIBLE)

  function QuartetVote(i: nat, h: Hash): Vote
    requires i < 4
  {
    Vote(PREVOTE_TYPE, h, ZERO_TIME, [i], i, [0])
  }

  lemma QuartetVotesPass(i: nat, h: Hash)
    requires i < 4 && ValidHash(h)
    ensures Stored(QUARTET, i, QuartetVote(i, h))
  {
    var v := CanonicalVote(PREVOTE_TYPE, 0, 0, CanonicalizeHash(h).value, ZERO_TIME, []);
    SmallEncoding(v);
  }

  lemma QuartetQuorum()
    ensures GoodConfig(QUARTET) && TotalPower(QUARTET.vals) == 4 && Quorum(QUARTET) == 3
  {
    var p := Powers(QUARTET.vals);
    assert p == [1, 1, 1, 1];
    SumConst(p, 1);
  }

  /** Validator 3 votes for nil, the others for a block; then 3 votes for the block too. */
  function LateConvert(h: Hash): seq<Op> {
    [Add(Some(QuartetVote(3, []))), Add(Some(QuartetVote(0, h))), Add(Some(QuartetVote(1, h))),
     Add(Some(QuartetVote(2, h))), Add(Some(QuartetVote(3, h)))]
  }

  lemma RunStep(cfg: Config, ops: seq<Op>, k: nat)
    requires k < |ops|
    ensures Run(cfg, ops[..k + 1]) == Apply(cfg, Run(cfg, ops[..k]), ops[k])
  {
    assert ops[..k + 1][..k] == ops[..k];
  }

  /** The first vote of each. */
  function Ballots(h: Hash): Slots {
    [Some(QuartetVote(0, h)), Some(QuartetVote(1, h)), Some(QuartetVote(2, h)), Some(QuartetVote(3, []))]
  }

  /** The state after the first four. */
  lemma FourVotes(h: Hash) returns (votes: Slots)
    requires IsComplete(h)
    ensures votes == Ballots(h)
    ensures Run(QUARTET, LateConvert(h)[..4]) == Tally(QUARTET, votes)
  {
    hide TotalPower, Quorum, Tally, AddVote, Stored, Verify, Run;
    QuartetQuorum();
    var ops := LateConvert(h);
    EmptyTally(QUARTET);
    RunNothing(QUARTET, ops[..0]);
    votes := NextOf(ops, 0, NoVotes(4), 3, []);
    votes := NextOf(ops, 1, votes, 0, h);
    votes := NextOf(ops, 2, votes, 1, h);
    votes := NextOf(ops, 3, votes, 2, h);
  }

  lemma RunNothing(cfg: Config, ops: seq<Op>)
    requires |ops| == 0
    ensures Run(cfg, ops) == NewState(cfg)
  {
  }

  lemma NextOf(ops: seq<Op>, k: nat, votes: Slots, i: nat, h: Hash) returns (next: Slots)
    requires k < |ops| && i < |votes| == 4 && votes[i] == None && ValidHash(h) && ops[k] == Add(Some(QuartetVote(i, h)))
    requires Run(QUARTET, ops[..k]) == Tally(QUARTET, votes)
    ensures next == votes[i := Some(QuartetVote(i, h))] && Run(QUARTET, ops[..k + 1]) == Tally(QUARTET, next)
  {
    hide TotalPower, Quorum, Tally, AddVote, Stored, Verify, Run, GoodConfig;
    QuartetQuorum();
    QuartetVotesPass(i, h);
    TallyStep(QUARTET, votes, i, QuartetVote(i, h));
    RunStep(QUARTET, ops, k);
    next := votes[i := Some(QuartetVote(i, h))];
  }

  lemma QuartetMajority(votes: Slots, h: Hash)
    requires IsComplete(h)
    requires votes == Ballots(h)
    ensures Majority(QUARTET, votes) == Some(h)
    ensures h in Hashes(votes) && Only(votes, h)[3] == None
  {
    hide TotalPower, Quorum;
    QuartetQuorum();
    var p := SlotPowers(QUARTET, Only(votes, h));
    assert p == [1, 1, 1] + [0];
    SumConst([1, 1, 1], 1);
    SumAppend([1, 1, 1], 0);
    assert Quorate(QUARTET, votes, h);
    OneMajority(QUARTET, votes, h, Majority(QUARTET, votes).value);
    assert votes[0].value.dataHash in Hashes(votes);
  }

  /** The fifth call meets the guard. */
  lemma FifthStrays(h: Hash)
    requires IsComplete(h)
    ensures StraysAt(QUARTET, LateConvert(h), 4, 3)
  {
    hide TotalPower, Quorum, Run, Stored, Verify, AddVote, VotedPower, Majority, Hashes;
    var votes := FourVotes(h);
    QuartetMajority(votes, h);
    QuartetVotesPass(3, h);
    assert Strays(QUARTET, Tally(QUARTET, votes), LateConvert(h)[4].vote, 3);
  }

  /**
   * The counterexample: for every block hash, after these five calls the canonical vote of validator 3 is in no block.
   */
  lemma StrayExists(h: Hash)
    requires IsComplete(h)
    ensures GoodConfig(QUARTET)
    ensures Stray(Run(QUARTET, LateConvert(h)), 3)
  {
    hide Run, StraysAt, Stray, TotalPower;
    QuartetQuorum();
    FifthStrays(h);
    StrayRuns(QUARTET, LateConvert(h), 3);
  }
}
