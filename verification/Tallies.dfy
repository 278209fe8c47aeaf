/** Without equivocation and claims a vote set is a function of the votes it was given, in any order. */
module Tallies {
  import opened Options
  import opened Sums
  import opened Proposers
  import opened Quorums
  import opened Votes
  import opened VoteSets
  import opened VoteSetInvariant

  /** The votes for one block. */
  function Only(votes: Slots, h: Hash): (r: Slots)
    ensures |r| == |votes|
  {
    seq(|votes|, i requires 0 <= i < |votes| =>
      if votes[i].Some? && votes[i].value.dataHash == h then votes[i] else None)
  }

  function Bits(votes: Slots): (r: seq<bool>)
    ensures |r| == |votes|
  {
    seq(|votes|, i requires 0 <= i < |votes| => votes[i].Some?)
  }

  function Hashes(votes: Slots): set<Hash> {
    set i | 0 <= i < |votes| && votes[i].Some? :: votes[i].value.dataHash
  }

  ghost predicate Quorate(cfg: Config, votes: Slots, h: Hash)
    requires |votes| == |cfg.vals|
  {
    VotedPower(cfg, Only(votes, h)) >= Quorum(cfg)
  }

  ghost function Majority(cfg: Config, votes: Slots): (r: Option<Hash>)
    requires |votes| == |cfg.vals|
    ensures r.Some? ==> Quorate(cfg, votes, r.value)
    ensures r.None? ==> forall h :: !Quorate(cfg, votes, h)
  {
    if exists h :: Quorate(cfg, votes, h) then
      var h :| Quorate(cfg, votes, h);
      Some(h)
    else None
  }

  function TallyBlock(cfg: Config, votes: Slots, h: Hash): BlockVotes
    requires |votes| == |cfg.vals|
  {
    BlockVotes(false, Bits(Only(votes, h)), Only(votes, h), VotedPower(cfg, Only(votes, h)))
  }

  /** The state that one vote per occupied slot leads to. */
  ghost function Tally(cfg: Config, votes: Slots): (st: State)
    requires |votes| == |cfg.vals|
    ensures Shaped(cfg, st) && st.votes == votes && st.done == st.maj23.Some?
  {
    var maj := Majority(cfg, votes);
    State(Bits(votes), votes, VotedPower(cfg, votes), maj,
          map h | h in Hashes(votes) :: TallyBlock(cfg, votes, h), map[], maj.Some?)
  }

  lemma VotedPowerIsWeight(cfg: Config, votes: Slots)
    requires |votes| == |cfg.vals|
    ensures VotedPower(cfg, votes) == Weight(cfg.vals, Bits(votes))
  {
    assert SlotPowers(cfg, votes) == Weights(cfg.vals, Bits(votes));
  }

  /** One vote each: at most one block has a quorum. */
  lemma OneMajority(cfg: Config, votes: Slots, h: Hash, k: Hash)
    requires GoodConfig(cfg) && |votes| == |cfg.vals|
    requires Quorate(cfg, votes, h) && Quorate(cfg, votes, k)
    ensures h == k
  {
    hide TotalPower, Weight, VotedPower;
    var a, b := Bits(Only(votes, h)), Bits(Only(votes, k));
    VotedPowerIsWeight(cfg, Only(votes, h));
    VotedPowerIsWeight(cfg, Only(votes, k));
    QuorumOverlap(cfg.vals, a, b);
    var nobody := seq(|votes|, i => false);
    WeightOfNobody(cfg.vals, nobody);
    WeightAtMostTotal(cfg.vals, nobody);
    var i := SomeoneElse(cfg.vals, Both(a, b), nobody);
  }

  lemma WeightOfNobody(vals: seq<Proposer>, nobody: seq<bool>)
    requires |nobody| == |vals| && forall i :: 0 <= i < |nobody| ==> !nobody[i]
    ensures Weight(vals, nobody) == 0
  {
    SumConst(Weights(vals, nobody), 0);
  }

  /** One more vote in an empty slot moves the tally to that of the longer list. */
  lemma TallyStep(cfg: Config, votes: Slots, i: nat, v: Vote)
    requires GoodConfig(cfg) && |votes| == |cfg.vals| && i < |votes| && votes[i] == None && Stored(cfg, i, v)
    ensures AddVote(cfg, Tally(cfg, votes), Some(v)) == (Tally(cfg, votes[i := Some(v)]), Added)
  {
    hide TotalPower, VotedPower, Quorum, Refusal, Place, Count, Tally, Verify;
    NotRefused(cfg, votes, i, v);
    PlaceTally(cfg, votes, i, v);
    CountTally(cfg, votes, i, v);
  }

  lemma NotRefused(cfg: Config, votes: Slots, i: nat, v: Vote)
    requires |votes| == |cfg.vals| && i < |votes| && votes[i] == None && Stored(cfg, i, v)
    ensures Refusal(cfg, Tally(cfg, votes), Some(v)) == None
  {
    hide TotalPower, VotedPower, Quorum, Verify;
  }

  lemma PlaceTally(cfg: Config, votes: Slots, i: nat, v: Vote)
    requires |votes| == |cfg.vals| && i < |votes| && votes[i] == None
    ensures var next := votes[i := Some(v)];
      Place(Tally(cfg, votes), v, i, cfg.vals[i].votingPower)
      == Tally(cfg, votes).(votes := next, bits := Bits(next), sum := VotedPower(cfg, next))
  {
    hide VotedPower, Quorum, TallyBlock, Hashes;
    VotedPowerPut(cfg, votes, i, v);
    assert Bits(votes[i := Some(v)]) == Bits(votes)[i := true];
  }

  /** The blocks after the vote. */
  lemma BlocksStep(cfg: Config, votes: Slots, i: nat, v: Vote)
    requires |votes| == |cfg.vals| && i < |votes| && votes[i] == None
    ensures var next := votes[i := Some(v)];
      && TallyBlock(cfg, next, v.dataHash)
         == BlockAdd(TallyBlock(cfg, votes, v.dataHash), v, i, cfg.vals[i].votingPower)
      && (forall k :: k != v.dataHash ==> TallyBlock(cfg, next, k) == TallyBlock(cfg, votes, k))
      && Hashes(next) == Hashes(votes) + {v.dataHash}
      && (v.dataHash !in Hashes(votes) ==> TallyBlock(cfg, votes, v.dataHash) == NewBlock(false, |cfg.vals|))
  {
    hide VotedPower;
    var next, h := votes[i := Some(v)], v.dataHash;
    assert Only(next, h) == Only(votes, h)[i := Some(v)];
    assert Bits(Only(next, h)) == Bits(Only(votes, h))[i := true];
    VotedPowerPut(cfg, Only(votes, h), i, v);
    forall k | k != h ensures TallyBlock(cfg, next, k) == TallyBlock(cfg, votes, k) {
      assert Only(next, k) == Only(votes, k);
    }
    HashesPut(votes, i, v);
    if h !in Hashes(votes) {
      UnusedHash(votes, h);
      NothingVoted(cfg, Only(votes, h));
    }
  }

  lemma HashesPut(votes: Slots, i: nat, v: Vote)
    requires i < |votes| && votes[i] == None
    ensures Hashes(votes[i := Some(v)]) == Hashes(votes) + {v.dataHash}
  {
    var next := votes[i := Some(v)];
    assert next[i].value.dataHash in Hashes(next);
    forall h | h in Hashes(votes) ensures h in Hashes(next) {
      var j :| 0 <= j < |votes| && votes[j].Some? && votes[j].value.dataHash == h;
      assert next[j] == votes[j];
    }
  }

  lemma UnusedHash(votes: Slots, h: Hash)
    requires h !in Hashes(votes)
    ensures Only(votes, h) == NoVotes(|votes|) && Bits(Only(votes, h)) == NoBits(|votes|)
  {
  }

  lemma MajorityStep(cfg: Config, votes: Slots, i: nat, v: Vote)
    requires GoodConfig(cfg) && |votes| == |cfg.vals| && i < |votes| && votes[i] == None
    ensures Majority(cfg, votes[i := Some(v)])
            == if Majority(cfg, votes) == None && Quorate(cfg, votes[i := Some(v)], v.dataHash) then Some(v.dataHash)
               else Majority(cfg, votes)
  {
    hide TotalPower, VotedPower, Quorum;
    var next, h := votes[i := Some(v)], v.dataHash;
    assert Only(next, h) == Only(votes, h)[i := Some(v)];
    VotedPowerPut(cfg, Only(votes, h), i, v);
    forall k | k != h ensures Quorate(cfg, next, k) == Quorate(cfg, votes, k) {
      assert Only(next, k) == Only(votes, k);
    }
    if Majority(cfg, votes).Some? {
      assert Quorate(cfg, votes, Majority(cfg, votes).value);
      assert Quorate(cfg, next, Majority(cfg, votes).value);
      OneMajority(cfg, next, Majority(cfg, votes).value, Majority(cfg, next).value);
    } else if Quorate(cfg, next, h) {
      OneMajority(cfg, next, h, Majority(cfg, next).value);
    }
  }

  lemma CopyNothing(votes: Slots, h: Hash)
    ensures CopyOver(votes, Only(votes, h)) == votes
  {
  }

  lemma CountTally(cfg: Config, votes: Slots, i: nat, v: Vote)
    requires GoodConfig(cfg) && |votes| == |cfg.vals| && i < |votes| && votes[i] == None
    ensures var next := votes[i := Some(v)];
      var st := Tally(cfg, votes);
      Count(cfg, st.(votes := next, bits := Bits(next), sum := VotedPower(cfg, next)), v, i, cfg.vals[i].votingPower)
      == Tally(cfg, next).(done := st.done)
  {
    hide TotalPower, VotedPower, Quorum, BlockAdd, Only, Hashes, Bits, CopyOver, GoodConfig, Majority;
    var next, h := votes[i := Some(v)], v.dataHash;
    BlocksStep(cfg, votes, i, v);
    MajorityStep(cfg, votes, i, v);
    QuorumPositive(cfg);
    CopyNothing(next, h);
    var st, end := Tally(cfg, votes), Tally(cfg, next);
    var before := if h in st.blocks then st.blocks[h] else NewBlock(false, |cfg.vals|);
    assert before == TallyBlock(cfg, votes, h);
    assert st.blocks[h := TallyBlock(cfg, next, h)] == end.blocks;
    assert Quorate(cfg, votes, h) <==> before.sum >= Quorum(cfg);
    assert Quorate(cfg, next, h) <==> TallyBlock(cfg, next, h).sum >= Quorum(cfg);
  }

  // ---- runs

  /** The vote passes every check of AddVote on its own. */
  ghost predicate Good(cfg: Config, v: Vote) {
    0 <= v.index < |cfg.vals| && Stored(cfg, v.index, v)
  }

  /** No claims, and no validator cast two different valid votes. */
  ghost predicate OneVoteEach(cfg: Config, ops: seq<Op>) {
    && (forall i :: 0 <= i < |ops| ==> ops[i].Add?)
    && forall v, w :: Add(Some(v)) in ops && Add(Some(w)) in ops && Good(cfg, v) && Good(cfg, w) && v.index == w.index
         ==> v == w
  }

  ghost function Assigned(cfg: Config, ops: seq<Op>): (r: Slots)
    ensures |r| == |cfg.vals|
  {
    if |ops| == 0 then NoVotes(|cfg.vals|)
    else
      var votes := Assigned(cfg, ops[..|ops| - 1]);
      match ops[|ops| - 1]
      case Add(Some(v)) => if Good(cfg, v) then votes[v.index := Some(v)] else votes
      case _ => votes
  }

  lemma {:induction false} AssignedIs(cfg: Config, ops: seq<Op>, i: nat, v: Vote)
    requires OneVoteEach(cfg, ops) && i < |cfg.vals|
    ensures Assigned(cfg, ops)[i] == Some(v) <==> Good(cfg, v) && v.index == i && Add(Some(v)) in ops
  {
    hide Good;
    if |ops| > 0 {
      var n := |ops| - 1;
      FrontOneVoteEach(cfg, ops);
      AssignedIs(cfg, ops[..n], i, v);
      assert ops == ops[..n] + [ops[n]];
      match ops[n] {
        case Add(Some(w)) =>
        case _ =>
      }
    }
  }

  lemma FrontOneVoteEach(cfg: Config, ops: seq<Op>)
    requires OneVoteEach(cfg, ops) && |ops| > 0
    ensures OneVoteEach(cfg, ops[..|ops| - 1])
  {
    hide Good;
  }

  lemma {:induction false} RunIsTally(cfg: Config, ops: seq<Op>)
    requires GoodConfig(cfg) && OneVoteEach(cfg, ops)
    ensures Run(cfg, ops) == Tally(cfg, Assigned(cfg, ops))
  {
    hide Tally, AddVote, GoodConfig, OneVoteEach;
    if |ops| == 0 {
      EmptyTally(cfg);
    } else {
      var n := |ops| - 1;
      FrontOneVoteEach(cfg, ops);
      RunIsTally(cfg, ops[..n]);
      NextVote(cfg, ops);
    }
  }

  lemma EmptyTally(cfg: Config)
    requires GoodConfig(cfg)
    ensures Tally(cfg, NoVotes(|cfg.vals|)) == NewState(cfg)
  {
    hide TotalPower, Quorum;
    var none := NoVotes(|cfg.vals|);
    NothingVoted(cfg, none);
    QuorumPositive(cfg);
    forall h ensures !Quorate(cfg, none, h) {
      NothingVoted(cfg, Only(none, h));
    }
    assert Hashes(none) == {};
    assert Bits(none) == NoBits(|cfg.vals|);
  }

  lemma NextVote(cfg: Config, ops: seq<Op>)
    requires GoodConfig(cfg) && OneVoteEach(cfg, ops) && |ops| > 0
    ensures ops[|ops| - 1].Add?
    ensures AddVote(cfg, Tally(cfg, Assigned(cfg, ops[..|ops| - 1])), ops[|ops| - 1].vote).0
            == Tally(cfg, Assigned(cfg, ops))
  {
    hide Tally, AddVote, GoodConfig, Good;
    var n := |ops| - 1;
    var votes := Assigned(cfg, ops[..n]);
    match ops[n].vote {
      case None => Unchanged(cfg, votes, None);
      case Some(v) =>
        if !Good(cfg, v) {
          Unchanged(cfg, votes, Some(v));
        } else {
          GoodIndex(cfg, v);
          if votes[v.index].None? {
            TallyStep(cfg, votes, v.index, v);
          } else {
            FrontOneVoteEach(cfg, ops);
            AssignedIs(cfg, ops[..n], v.index, votes[v.index].value);
            assert Add(votes[v.index]) in ops && Add(Some(v)) in ops;
            assert votes[v.index := Some(v)] == votes;
            Unchanged(cfg, votes, Some(v));
          }
        }
    }
  }

  lemma GoodIndex(cfg: Config, v: Vote)
    requires Good(cfg, v)
    ensures 0 <= v.index < |cfg.vals| && Stored(cfg, v.index, v)
  {
  }

  /** A vote that is not valid, or that is stored already, changes nothing. */
  lemma Unchanged(cfg: Config, votes: Slots, vote: Option<Vote>)
    requires |votes| == |cfg.vals|
    requires vote.Some? && Good(cfg, vote.value) ==> votes[vote.value.index] == vote
    ensures AddVote(cfg, Tally(cfg, votes), vote).0 == Tally(cfg, votes)
  {
    hide VotedPower, Quorum, AddVerified, TotalPower, Hashes, Only, Bits, TallyBlock;
  }

  /**
   * Delivery order, repetition and invalid votes do not matter: the same valid votes end in the same votes, sums,
   * blocks, majority and signal.
   */
  lemma OrderIndependence(cfg: Config, ops: seq<Op>, ops': seq<Op>)
    requires GoodConfig(cfg) && OneVoteEach(cfg, ops) && forall i :: 0 <= i < |ops'| ==> ops'[i].Add?
    requires forall v :: Good(cfg, v) ==> (Add(Some(v)) in ops <==> Add(Some(v)) in ops')
    ensures Run(cfg, ops) == Run(cfg, ops')
  {
    hide Tally, Assigned, Run, GoodConfig, Good;
    var votes, votes' := Assigned(cfg, ops), Assigned(cfg, ops');
    forall i | 0 <= i < |cfg.vals| ensures votes[i] == votes'[i] {
      if votes[i].Some? { AssignedIs(cfg, ops, i, votes[i].value); AssignedIs(cfg, ops', i, votes[i].value); }
      if votes'[i].Some? { AssignedIs(cfg, ops, i, votes'[i].value); AssignedIs(cfg, ops', i, votes'[i].value); }
    }
    assert votes == votes';
    RunIsTally(cfg, ops);
    RunIsTally(cfg, ops');
  }
}
