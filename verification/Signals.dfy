/** When the wake-up signal of a vote set is given, and when a majority stays silent. */
module Signals {
  import opened Int64
  import opened Bytes
  import opened Options
  import opened Sums
  import opened Proposers
  import opened Varints
  import opened Canonical
  import opened Votes
  import opened VoteSets
  import opened VoteSetInvariant
  import opened Tallies

  /** A majority stands and nobody waiting has been told. */
  ghost predicate Silent(st: State) { st.maj23.Some? && !st.done }

  /** A vote that passes every check and that getVote does not know. */
  ghost predicate Accepts(cfg: Config, st: State, vote: Option<Vote>)
    requires Shaped(cfg, st)
  {
    vote.Some? && Good(cfg, vote.value) && Known(st, vote.value.index, vote.value.dataHash) == None
  }

  lemma RefusalExactly(cfg: Config, st: State, vote: Option<Vote>)
    requires Shaped(cfg, st)
    ensures Refusal(cfg, st, vote) == None <==> Accepts(cfg, st, vote)
  {
    hide Verify, Known;
  }

  /** The block of the vote reaches the quorum with it. */
  ghost predicate Crosses(cfg: Config, st: State, v: Vote)
    requires 0 <= v.index < |cfg.vals|
  {
    (if v.dataHash in st.blocks then st.blocks[v.dataHash].sum else 0) + cfg.vals[v.index].votingPower >= Quorum(cfg)
  }

  /** A valid vote of a validator that has none yet. */
  ghost predicate Fills(cfg: Config, st: State, vote: Option<Vote>)
    requires Shaped(cfg, st)
  {
    vote.Some? && Good(cfg, vote.value) && st.votes[vote.value.index] == None
  }

  /** The guard of silence: a conflicting vote, counted because of a claim, completes the first quorum. */
  ghost predicate TurnsSilent(cfg: Config, st: State, vote: Option<Vote>)
    requires Shaped(cfg, st)
  {
    && st.maj23 == None && Accepts(cfg, st, vote) && st.votes[vote.value.index].Some?
    && vote.value.dataHash in st.blocks && st.blocks[vote.value.dataHash].peerMaj23 && Crosses(cfg, st, vote.value)
  }

  /** The guard of the signal: a first vote of its validator while a majority stands or is just reached. */
  ghost predicate Announces(cfg: Config, st: State, vote: Option<Vote>)
    requires Shaped(cfg, st)
  {
    Fills(cfg, st, vote) && (st.maj23.Some? || Crosses(cfg, st, vote.value))
  }

  /** A first vote is never known. */
  lemma FirstIsAccepted(cfg: Config, st: State, vote: Option<Vote>)
    requires Inv(cfg, st) && Fills(cfg, st, vote)
    ensures Accepts(cfg, st, vote)
  {
    hide Stored, VotesInv, MajorityInv, PeersInv, BoundedInv, VotedPower, AllStored, BitsMatch;
    SlotsOfBlocks(cfg, st);
  }

  /** When an accepted vote makes a majority, in terms of the state before. */
  lemma MajorityAfter(cfg: Config, st: State, v: Vote)
    requires GoodConfig(cfg) && Inv(cfg, st) && Accepts(cfg, st, Some(v)) && st.maj23 == None
    ensures AddVerified(cfg, st, v, v.index).maj23.Some? <==> Tracks(st, v, v.index) && Crosses(cfg, st, v)
  {
    hide Stored, VotedPower, AllStored, BitsMatch, Quorum, TotalPower, PeersInv, BoundedInv, BlocksInv, VotesInv,
         CopyOver;
    QuorumPositive(cfg);
    var h := v.dataHash;
    if h in st.blocks { assert !HasQuorum(cfg, st, h); }
  }

  /** One call: whether it turns a set silent, ends its silence, or gives the signal. */
  lemma SilenceExactly(cfg: Config, st: State, vote: Option<Vote>)
    requires GoodConfig(cfg) && Inv(cfg, st)
    ensures var next := AddVote(cfg, st, vote).0;
      && (!Silent(st) ==> (Silent(next) <==> TurnsSilent(cfg, st, vote)))
      && (Silent(st) ==> (!Silent(next) <==> Fills(cfg, st, vote)))
      && (next.done <==> st.done || Announces(cfg, st, vote))
  {
    hide Quorum, AddVerified, Refusal, Known, Crosses, GoodConfig, BlocksInv, VotesInv, MajorityInv, BoundedInv, Good;
    RefusalExactly(cfg, st, vote);
    if Fills(cfg, st, vote) { FirstIsAccepted(cfg, st, vote); }
    if Accepts(cfg, st, vote) && st.maj23 == None { MajorityAfter(cfg, st, vote.value); }
  }

  // ---- whole runs

  ghost predicate TurnsAt(cfg: Config, ops: seq<Op>, k: nat) {
    k < |ops| && ops[k].Add? && TurnsSilent(cfg, Run(cfg, ops[..k]), ops[k].vote)
  }

  ghost predicate FillsAt(cfg: Config, ops: seq<Op>, k: nat) {
    k < |ops| && ops[k].Add? && Fills(cfg, Run(cfg, ops[..k]), ops[k].vote)
  }

  ghost predicate AnnouncesAt(cfg: Config, ops: seq<Op>, k: nat) {
    k < |ops| && ops[k].Add? && Announces(cfg, Run(cfg, ops[..k]), ops[k].vote)
  }

  /** Nobody votes for the first time after the k-th call. */
  ghost predicate NoFirstVoteAfter(cfg: Config, ops: seq<Op>, k: nat) {
    forall l: nat :: k < l < |ops| ==> !FillsAt(cfg, ops, l)
  }

  lemma OneMoreCall(cfg: Config, ops: seq<Op>)
    requires GoodConfig(cfg) && |ops| > 0
    ensures var n := |ops| - 1;
      var st, next := Run(cfg, ops[..n]), Run(cfg, ops);
      && (!Silent(st) ==> (Silent(next) <==> TurnsAt(cfg, ops, n)))
      && (Silent(st) ==> (!Silent(next) <==> FillsAt(cfg, ops, n)))
      && (next.done <==> st.done || AnnouncesAt(cfg, ops, n))
      && (TurnsAt(cfg, ops, n) ==> !Silent(st))
  {
    hide AddVote, SetPeerMaj23, Inv, GoodConfig, Accepts, Crosses, Fills, Announces;
    var n := |ops| - 1;
    var st := Run(cfg, ops[..n]);
    RunInv(cfg, ops[..n]);
    match ops[n] {
      case Add(vote) => SilenceExactly(cfg, st, vote);
      case Claim(peer, h) => ClaimInv(cfg, st, peer, h);
    }
  }

  /** What happened at a call does not depend on what came later. */
  lemma EarlierCall(cfg: Config, ops: seq<Op>, k: nat)
    requires k < |ops| - 1
    ensures var front := ops[..|ops| - 1];
      && TurnsAt(cfg, front, k) == TurnsAt(cfg, ops, k)
      && FillsAt(cfg, front, k) == FillsAt(cfg, ops, k)
      && AnnouncesAt(cfg, front, k) == AnnouncesAt(cfg, ops, k)
  {
    hide Run, TurnsSilent, Fills, Announces;
    assert ops[..|ops| - 1][..k] == ops[..k];
  }

  lemma EarlierCalls(cfg: Config, ops: seq<Op>, front: seq<Op>)
    requires |ops| > 0 && front == ops[..|ops| - 1]
    ensures forall k: nat :: k < |front| ==> TurnsAt(cfg, front, k) == TurnsAt(cfg, ops, k)
    ensures forall k: nat :: k < |front| ==> FillsAt(cfg, front, k) == FillsAt(cfg, ops, k)
    ensures forall k: nat :: k < |front| ==> AnnouncesAt(cfg, front, k) == AnnouncesAt(cfg, ops, k)
  {
    hide TurnsAt, FillsAt, AnnouncesAt;
    forall k: nat | k < |front|
      ensures TurnsAt(cfg, front, k) == TurnsAt(cfg, ops, k) && FillsAt(cfg, front, k) == FillsAt(cfg, ops, k)
              && AnnouncesAt(cfg, front, k) == AnnouncesAt(cfg, ops, k)
    {
      EarlierCall(cfg, ops, k);
    }
  }

  /** In every run: a majority stands unannounced exactly since a call that met the guard, with no first vote since. */
  lemma {:induction false} SilentRuns(cfg: Config, ops: seq<Op>)
    requires GoodConfig(cfg)
    ensures Silent(Run(cfg, ops)) <==> exists k: nat :: TurnsAt(cfg, ops, k) && NoFirstVoteAfter(cfg, ops, k)
  {
    hide Run, GoodConfig, TurnsAt, FillsAt, AnnouncesAt, Silent;
    if |ops| == 0 {
      NothingYet(cfg, ops);
    } else {
      var n := |ops| - 1;
      SilentRuns(cfg, ops[..n]);
      OneMoreCall(cfg, ops);
      OnlyWithin(cfg, ops);
      OnlyWithin(cfg, ops[..|ops| - 1]);
      EarlierCalls(cfg, ops, ops[..|ops| - 1]);
      if Silent(Run(cfg, ops)) {
        if Silent(Run(cfg, ops[..n])) {
          var k: nat :| TurnsAt(cfg, ops[..n], k) && NoFirstVoteAfter(cfg, ops[..n], k);
          assert TurnsAt(cfg, ops, k) && NoFirstVoteAfter(cfg, ops, k);
        } else {
          assert TurnsAt(cfg, ops, n) && NoFirstVoteAfter(cfg, ops, n);
        }
      } else if k: nat :| TurnsAt(cfg, ops, k) && NoFirstVoteAfter(cfg, ops, k) {
        assert k < n ==> TurnsAt(cfg, ops[..n], k) && NoFirstVoteAfter(cfg, ops[..n], k);
      }
    }
  }

  lemma NothingYet(cfg: Config, ops: seq<Op>)
    requires |ops| == 0
    ensures !Silent(Run(cfg, ops)) && !Run(cfg, ops).done
    ensures forall k: nat :: !TurnsAt(cfg, ops, k) && !AnnouncesAt(cfg, ops, k)
  {
  }

  lemma OnlyWithin(cfg: Config, ops: seq<Op>)
    ensures forall k: nat :: k >= |ops| ==> !TurnsAt(cfg, ops, k) && !AnnouncesAt(cfg, ops, k)
  {
    hide Run, TurnsSilent, Announces;
  }

  /** In every run, also with claims: the signal has been given exactly if some call met its guard. */
  lemma {:induction false} DoneExactly(cfg: Config, ops: seq<Op>)
    requires GoodConfig(cfg)
    ensures Run(cfg, ops).done <==> exists k: nat :: AnnouncesAt(cfg, ops, k)
  {
    hide Run, GoodConfig, TurnsAt, FillsAt, AnnouncesAt, Silent;
    if |ops| == 0 {
      NothingYet(cfg, ops);
    } else {
      DoneExactly(cfg, ops[..|ops| - 1]);
      OneMoreCall(cfg, ops);
      OnlyWithin(cfg, ops);
      OnlyWithin(cfg, ops[..|ops| - 1]);
      EarlierCalls(cfg, ops, ops[..|ops| - 1]);
      if k: nat :| AnnouncesAt(cfg, ops, k) {
        assert k < |ops| - 1 ==> AnnouncesAt(cfg, ops[..|ops| - 1], k);
      }
    }
  }

  // ---- a majority without a signal

  /** A peer claims the block of one validator's vote; the other, who voted elsewhere first, follows. */
  function LateFollower(a: Vote, first: Vote, second: Vote, peer: PeerID): seq<Op> {
    [Add(Some(a)), Add(Some(first)), Claim(peer, a.dataHash), Add(Some(second))]
  }

  ghost predicate Passes(cfg: Config, v: Vote, i: nat) {
    i < |cfg.vals| && Stored(cfg, i, v)
  }

  /** Two validators of power 2 each. */
  ghost predicate TwoEqual(cfg: Config) {
    |cfg.vals| == 2 && cfg.vals[0].votingPower == cfg.vals[1].votingPower == 2
  }

  lemma QuorumOfTwo(cfg: Config)
    requires TwoEqual(cfg)
    ensures GoodConfig(cfg) && TotalPower(cfg.vals) == 4 && Quorum(cfg) == 3
  {
    var p := Powers(cfg.vals);
    assert p == [2, 2];
    assert p[..1] == [2] && p[..1][..0] == [];
    assert Sum(p) == Sum(p[..1]) + 2 && Sum(p[..1]) == Sum(p[..1][..0]) + 2;
  }

  /** With a claim, the majority of all validators can stand and the signal still be missing. */
  lemma SilentMajority(cfg: Config, a: Vote, first: Vote, second: Vote, peer: PeerID)
    requires TwoEqual(cfg) && Passes(cfg, a, 0) && Passes(cfg, first, 1) && Passes(cfg, second, 1)
    requires a.dataHash == second.dataHash != first.dataHash
    ensures var st := Run(cfg, LateFollower(a, first, second, peer));
      st.maj23 == Some(a.dataHash) && st.sum == TotalPower(cfg.vals) && !st.done
  {
    hide Stored, AddVote, TotalPower;
    QuorumOfTwo(cfg);
    var ops := LateFollower(a, first, second, peer);
    var st1 := AfterFirst(cfg, a);
    var st2 := AfterSecond(cfg, st1, a, first);
    var st3 := SetPeerMaj23(cfg, st2, peer, a.dataHash).0;
    var st4 := AfterThird(cfg, st3, a, first, second);
    assert ops[..1][..0] == [] && ops[..2][..1] == ops[..1] && ops[..3][..2] == ops[..2];
    assert Run(cfg, ops[..1]) == st1;
    assert Run(cfg, ops[..2]) == st2;
    assert Run(cfg, ops[..3]) == st3;
    assert Run(cfg, ops) == st4;
  }

  lemma AfterFirst(cfg: Config, a: Vote) returns (st: State)
    requires TwoEqual(cfg) && Passes(cfg, a, 0) && Quorum(cfg) == 3
    ensures st == AddVote(cfg, NewState(cfg), Some(a)).0 && Shaped(cfg, st)
    ensures st.votes == [Some(a), None] && st.maj23 == None && !st.done && st.peers == map[] && st.sum == 2
    ensures st.blocks.Keys == {a.dataHash}
    ensures st.blocks[a.dataHash] == BlockVotes(false, [true, false], [Some(a), None], 2)
  {
    hide Verify, Quorum, TotalPower;
    st := AddVote(cfg, NewState(cfg), Some(a)).0;
    assert Refusal(cfg, NewState(cfg), Some(a)) == None;
    assert NoVotes(2) == [None, None] && NoBits(2) == [false, false];
    AddVoteShaped(cfg, NewState(cfg), Some(a));
  }

  lemma AfterSecond(cfg: Config, st: State, a: Vote, first: Vote) returns (next: State)
    requires TwoEqual(cfg) && Passes(cfg, first, 1) && Quorum(cfg) == 3 && Shaped(cfg, st)
    requires a.dataHash != first.dataHash
    requires st.votes == [Some(a), None] && st.maj23 == None && !st.done && st.peers == map[] && st.sum == 2
    requires st.blocks.Keys == {a.dataHash}
    requires st.blocks[a.dataHash] == BlockVotes(false, [true, false], [Some(a), None], 2)
    ensures next == AddVote(cfg, st, Some(first)).0 && Shaped(cfg, next)
    ensures next.votes == [Some(a), Some(first)] && next.maj23 == None && !next.done && next.peers == map[]
    ensures next.sum == 4
    ensures a.dataHash in next.blocks
            && next.blocks[a.dataHash] == BlockVotes(false, [true, false], [Some(a), None], 2)
  {
    hide Verify, Quorum, TotalPower;
    next := AddVote(cfg, st, Some(first)).0;
    assert Refusal(cfg, st, Some(first)) == None;
    assert NoVotes(2) == [None, None] && NoBits(2) == [false, false];
    AddVoteShaped(cfg, st, Some(first));
  }

  lemma AfterThird(cfg: Config, st: State, a: Vote, first: Vote, second: Vote) returns (next: State)
    requires TwoEqual(cfg) && Passes(cfg, second, 1) && Quorum(cfg) == 3 && Shaped(cfg, st)
    requires a.dataHash == second.dataHash != first.dataHash
    requires st.votes == [Some(a), Some(first)] && st.maj23 == None && !st.done && st.sum == 4
    requires a.dataHash in st.blocks && st.blocks[a.dataHash] == BlockVotes(true, [true, false], [Some(a), None], 2)
    ensures next == AddVote(cfg, st, Some(second)).0
    ensures next.maj23 == Some(a.dataHash) && !next.done && next.sum == 4
  {
    hide Verify, Quorum, TotalPower;
    next := AddVote(cfg, st, Some(second)).0;
    assert Refusal(cfg, st, Some(second)) == None;
  }

  // ---- an input that does it

  /** A clock codec that knows one instant. */
  const ONE_INSTANT: TimeCodec := TimeCodec(
    (t: Time) => if t == ZERO_TIME then Some([]) else None,
    (bs: ByteString) => Some(ZERO_TIME))

  const GULLIBLE: Crypto := Crypto((pk: PubKey, m: ByteString, sig: Signature) => true, (pk: PubKey) => pk, ONE_INSTANT)

  const PAIR: Config := Config([], PREVOTE_TYPE, [Proposer([1], [1], 2, 0), Proposer([2], [2], 2, 0)], GULLIBLE)

  function Ballot(i: Int32, h: Hash): Vote { Vote(PREVOTE_TYPE, h, ZERO_TIME, [if i == 0 then 1 else 2], i, [0]) }

  const SOME_HASH: Hash := seq(HASH_SIZE, i => 7)

  lemma BallotPasses(i: Int32, h: Hash)
    requires 0 <= i < 2 && ValidHash(h)
    ensures Passes(PAIR, Ballot(i, h), i)
  {
    var v := CanonicalVote(PREVOTE_TYPE, 0, 0, CanonicalizeHash(h).value, ZERO_TIME, []);
    SmallEncoding(v);
  }

  lemma SmallEncoding(v: CanonicalVote)
    requires (v.msgType == PREVOTE_TYPE || v.msgType == PRECOMMIT_TYPE) && v.height == v.round == 0
    requires v.timestamp == ZERO_TIME && v.chainID == []
    requires v.dataHash.Some? ==> |v.dataHash.value.hash| <= HASH_SIZE
    ensures EncodeVote(ONE_INSTANT, v).Some? && |Delimited(EncodeVote(ONE_INSTANT, v).value)| <= MAX_INT64
  {
    SizeIsLength(ONE_INSTANT, v);
  }

  /** The counterexample: a precise configuration and four calls after which a majority stands unannounced. */
  lemma DoneCanLagBehind() returns (cfg: Config, ops: seq<Op>)
    ensures GoodConfig(cfg) && Run(cfg, ops).maj23.Some? && !Run(cfg, ops).done
  {
    hide Run, Passes;
    cfg := PAIR;
    BallotPasses(0, []);
    BallotPasses(1, SOME_HASH);
    BallotPasses(1, []);
    QuorumOfTwo(cfg);
    ops := LateFollower(Ballot(0, []), Ballot(1, SOME_HASH), Ballot(1, []), [9]);
    SilentMajority(cfg, Ballot(0, []), Ballot(1, SOME_HASH), Ballot(1, []), [9]);
  }
}
