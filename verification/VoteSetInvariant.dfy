/** What every sequence of AddVote and SetPeerMaj23 keeps. */
module VoteSetInvariant {
  import opened Options
  import opened Sums
  import opened Proposers
  import opened Votes
  import opened VoteSets

  /** The power behind each occupied slot. */
  function SlotPowers(cfg: Config, votes: Slots): (r: seq<int>)
    requires |votes| == |cfg.vals|
    ensures |r| == |votes|
  {
    seq(|votes|, i requires 0 <= i < |votes| => if votes[i].Some? then cfg.vals[i].votingPower as int else 0)
  }

  function VotedPower(cfg: Config, votes: Slots): int
    requires |votes| == |cfg.vals|
  {
    Sum(SlotPowers(cfg, votes))
  }

  /** The vote passed every check for its slot. */
  ghost predicate Stored(cfg: Config, i: nat, v: Vote)
    requires i < |cfg.vals|
  {
    && v.index == i && v.msgType == cfg.msgType && v.address == cfg.vals[i].address && v.address != []
    && Verify(cfg.crypto, cfg.chainID, cfg.vals[i].pubKey, v) == Valid
  }

  ghost predicate AllStored(cfg: Config, votes: Slots)
    requires |votes| == |cfg.vals|
  {
    forall i :: 0 <= i < |votes| && votes[i].Some? ==> Stored(cfg, i, votes[i].value)
  }

  ghost predicate BitsMatch(bits: seq<bool>, votes: Slots) {
    |bits| == |votes| && forall i :: 0 <= i < |votes| ==> bits[i] == votes[i].Some?
  }

  /** Every vote of the block is for the block, and its validator also has a canonical vote. */
  ghost predicate BlockInv(cfg: Config, votes: Slots, h: Hash, b: BlockVotes)
    requires |votes| == |cfg.vals|
  {
    && |b.votes| == |cfg.vals| && BitsMatch(b.bits, b.votes) && AllStored(cfg, b.votes)
    && b.sum == VotedPower(cfg, b.votes)
    && forall i :: 0 <= i < |votes| && b.votes[i].Some? ==> b.votes[i].value.dataHash == h && votes[i].Some?
  }

  ghost predicate BlocksInv(cfg: Config, st: State)
    requires Shaped(cfg, st)
  {
    forall h :: h in st.blocks ==> BlockInv(cfg, st.votes, h, st.blocks[h])
  }

  /** The canonical vote is in its block, or it is for the majority and the slot there is empty. */
  ghost predicate InItsBlock(st: State, h: Hash, i: nat)
    requires i < |st.votes| && (h in st.blocks ==> i < |st.blocks[h].votes|)
  {
    && h in st.blocks
    && (st.blocks[h].votes[i] == st.votes[i] || (st.maj23 == Some(h) && st.blocks[h].votes[i] == None))
  }

  /** The canonical list; a vote in it is also in its block, except one for the majority whose slot there is empty. */
  ghost predicate VotesInv(cfg: Config, st: State)
    requires Shaped(cfg, st)
  {
    && BitsMatch(st.bits, st.votes) && AllStored(cfg, st.votes)
    && st.sum == VotedPower(cfg, st.votes)
    && forall i :: 0 <= i < |st.votes| && st.votes[i].Some? ==>
         var h := st.votes[i].value.dataHash;
         InItsBlock(st, h, i)
  }

  ghost predicate HasQuorum(cfg: Config, st: State, h: Hash) {
    h in st.blocks && st.blocks[h].sum >= Quorum(cfg)
  }

  /** The majority is set exactly when a tracked block has a quorum, and the canonical list follows its block. */
  ghost predicate MajorityInv(cfg: Config, st: State)
    requires Shaped(cfg, st)
  {
    && (st.maj23 == None ==> forall h :: h in st.blocks ==> !HasQuorum(cfg, st, h))
    && (st.maj23.Some? ==>
          var m := st.maj23.value;
          && HasQuorum(cfg, st, m)
          && forall i :: 0 <= i < |st.votes| && st.blocks[m].votes[i].Some? ==>
               st.votes[i].Some? && st.votes[i].value.dataHash == m)
  }

  ghost predicate PeersInv(st: State) {
    && (forall p :: p in st.peers ==> st.peers[p] in st.blocks && st.blocks[st.peers[p]].peerMaj23)
    && (st.peers == map[] ==> forall h :: h in st.blocks ==> !st.blocks[h].peerMaj23)
    && (st.done ==> st.maj23.Some?)
    && (st.peers == map[] ==> st.done == st.maj23.Some?)
  }

  function Occupied(votes: Slots): set<int> {
    set i | 0 <= i < |votes| && votes[i].Some?
  }

  /** Memory stays bounded: tracked blocks against canonical votes and claiming peers. */
  ghost predicate BoundedInv(st: State) {
    |st.blocks| <= |Occupied(st.votes)| + |st.peers|
  }

  ghost predicate Inv(cfg: Config, st: State) {
    Shaped(cfg, st) && BlocksInv(cfg, st) && VotesInv(cfg, st) && MajorityInv(cfg, st) && PeersInv(st) && BoundedInv(st)
  }

  // ---- slot arithmetic

  lemma VotedPowerPut(cfg: Config, votes: Slots, i: nat, v: Vote)
    requires |votes| == |cfg.vals| && i < |votes|
    ensures VotedPower(cfg, votes[i := Some(v)])
            == VotedPower(cfg, votes) + if votes[i].None? then cfg.vals[i].votingPower else 0
  {
    var p := SlotPowers(cfg, votes);
    assert SlotPowers(cfg, votes[i := Some(v)]) == p[i := cfg.vals[i].votingPower as int];
    SumUpdate(p, i, cfg.vals[i].votingPower);
  }

  lemma VotedPowerSame(cfg: Config, votes: Slots, votes': Slots)
    requires |votes| == |votes'| == |cfg.vals|
    requires forall i :: 0 <= i < |votes| ==> votes[i].Some? == votes'[i].Some?
    ensures VotedPower(cfg, votes) == VotedPower(cfg, votes')
  {
    assert SlotPowers(cfg, votes) == SlotPowers(cfg, votes');
  }

  lemma NothingVoted(cfg: Config, votes: Slots)
    requires |votes| == |cfg.vals| && forall i :: 0 <= i < |votes| ==> votes[i] == None
    ensures VotedPower(cfg, votes) == 0
  {
    SumConst(SlotPowers(cfg, votes), 0);
  }

  lemma QuorumPositive(cfg: Config)
    requires GoodConfig(cfg)
    ensures Quorum(cfg) >= 1
  {
    SumAtLeast(Powers(cfg.vals), 0);
  }

  lemma OccupiedPut(votes: Slots, i: nat, v: Vote)
    requires i < |votes|
    ensures |Occupied(votes[i := Some(v)])| == |Occupied(votes)| + if votes[i].None? then 1 else 0
  {
    var put := votes[i := Some(v)];
    if votes[i].None? {
      assert i !in Occupied(votes) && Occupied(put) == Occupied(votes) + {i as int};
    } else {
      OccupiedSame(votes, put);
    }
  }

  lemma OccupiedSame(votes: Slots, votes': Slots)
    requires |votes| == |votes'| && forall i :: 0 <= i < |votes| ==> votes[i].Some? == votes'[i].Some?
    ensures Occupied(votes) == Occupied(votes')
  {
  }

  // ---- a fresh vote set

  lemma NewInv(cfg: Config)
    requires GoodConfig(cfg)
    ensures Inv(cfg, NewState(cfg))
  {
    NothingVoted(cfg, NewState(cfg).votes);
  }

  // ---- one accepted vote

  /** The state between the two halves: the canonical list already holds the vote, the block does not yet. */
  ghost predicate Placed(cfg: Config, st: State, v: Vote, i: nat)
    requires Shaped(cfg, st) && i < |cfg.vals|
  {
    && st.votes[i].Some?
    && BitsMatch(st.bits, st.votes) && AllStored(cfg, st.votes) && st.sum == VotedPower(cfg, st.votes)
    && BlocksInv(cfg, st) && MajorityInv(cfg, st)
    && forall j :: 0 <= j < |st.votes| && st.votes[j].Some? && !(j == i && st.votes[j] == Some(v)) ==>
         var h := st.votes[j].value.dataHash;
         InItsBlock(st, h, j)
  }

  lemma BlocksAfterPut(cfg: Config, st: State, i: nat, v: Vote)
    requires Shaped(cfg, st) && BlocksInv(cfg, st) && i < |cfg.vals|
    ensures forall h :: h in st.blocks ==> BlockInv(cfg, st.votes[i := Some(v)], h, st.blocks[h])
  {
    hide VotedPower, AllStored, BitsMatch;
    forall h | h in st.blocks ensures BlockInv(cfg, st.votes[i := Some(v)], h, st.blocks[h]) {
      assert BlockInv(cfg, st.votes, h, st.blocks[h]);
    }
  }

  lemma PlaceInv(cfg: Config, st: State, v: Vote, i: nat)
    requires Inv(cfg, st) && i < |cfg.vals| && Stored(cfg, i, v) && Known(st, i, v.dataHash) == None
    ensures var placed := Place(st, v, i, cfg.vals[i].votingPower);
      && Shaped(cfg, placed) && Placed(cfg, placed, v, i)
      && placed.blocks == st.blocks && placed.maj23 == st.maj23 && placed.peers == st.peers && placed.done == st.done
      && (st.votes[i].None? ==> placed.votes[i] == Some(v))
      && (st.votes[i].Some? && st.maj23 == Some(v.dataHash) ==> placed.votes[i] == Some(v))
      && |Occupied(placed.votes)| == |Occupied(st.votes)| + if st.votes[i].None? then 1 else 0
  {
    hide VotedPower, Stored, Occupied, Quorum, BlockInv, AllStored, BitsMatch;
    OccupiedPut(st.votes, i, v);
    PutSlots(cfg, st, i, v);
    BlocksAfterPut(cfg, st, i, v);
    SlotsOfBlocks(cfg, st);
  }

  /** The canonical list with one slot filled or replaced. */
  lemma PutSlots(cfg: Config, st: State, i: nat, v: Vote)
    requires |st.votes| == |st.bits| == |cfg.vals| && i < |st.votes| && Stored(cfg, i, v)
    requires AllStored(cfg, st.votes) && BitsMatch(st.bits, st.votes)
    ensures var votes := st.votes[i := Some(v)];
      && AllStored(cfg, votes) && BitsMatch(st.bits[i := true], votes)
      && VotedPower(cfg, votes) == VotedPower(cfg, st.votes) + if st.votes[i].None? then cfg.vals[i].votingPower else 0
  {
    hide Stored;
    VotedPowerPut(cfg, st.votes, i, v);
  }

  /** A canonical slot is occupied wherever a block slot is. */
  lemma SlotsOfBlocks(cfg: Config, st: State)
    requires Shaped(cfg, st) && BlocksInv(cfg, st)
    ensures forall h, i :: h in st.blocks && 0 <= i < |st.votes| && st.blocks[h].votes[i].Some? ==>
              && st.votes[i].Some? && st.blocks[h].votes[i].value.dataHash == h
              && Stored(cfg, i, st.blocks[h].votes[i].value)
  {
    forall h, i | h in st.blocks && 0 <= i < |st.votes| && st.blocks[h].votes[i].Some?
      ensures st.votes[i].Some? && st.blocks[h].votes[i].value.dataHash == h
      ensures Stored(cfg, i, st.blocks[h].votes[i].value)
    {
      assert BlockInv(cfg, st.votes, h, st.blocks[h]);
    }
  }

  /** The block after counting: its invariant, and its sum grown by the vote's power unless it was there. */
  lemma BlockAddInv(cfg: Config, votes: Slots, h: Hash, b: BlockVotes, v: Vote, i: nat)
    requires |votes| == |cfg.vals| && i < |votes| && votes[i].Some?
    requires BlockInv(cfg, votes, h, b) && Stored(cfg, i, v) && v.dataHash == h
    ensures BlockInv(cfg, votes, h, BlockAdd(b, v, i, cfg.vals[i].votingPower))
    ensures BlockAdd(b, v, i, cfg.vals[i].votingPower).votes[i].Some?
  {
    hide VotedPower, Stored;
    VotedPowerPut(cfg, b.votes, i, v);
  }

  lemma NewBlockInv(cfg: Config, votes: Slots, h: Hash, peerMaj23: bool)
    requires |votes| == |cfg.vals|
    ensures BlockInv(cfg, votes, h, NewBlock(peerMaj23, |cfg.vals|))
  {
    NothingVoted(cfg, NoVotes(|cfg.vals|));
  }

  /** Blocks under a canonical list with the same or more occupied slots. */
  lemma BlocksUnder(cfg: Config, blocks: map<Hash, BlockVotes>, votes: Slots, votes': Slots)
    requires |votes| == |votes'| == |cfg.vals|
    requires forall i :: 0 <= i < |votes| && votes[i].Some? ==> votes'[i].Some?
    requires forall h :: h in blocks ==> BlockInv(cfg, votes, h, blocks[h])
    ensures forall h :: h in blocks ==> BlockInv(cfg, votes', h, blocks[h])
  {
    hide VotedPower, AllStored, BitsMatch;
    forall h | h in blocks ensures BlockInv(cfg, votes', h, blocks[h]) {
      assert BlockInv(cfg, votes, h, blocks[h]);
    }
  }

  /** The block of the vote before and after counting it. */
  ghost predicate CountedBlock(cfg: Config, st: State, v: Vote, i: nat, before: BlockVotes, block: BlockVotes)
    requires Shaped(cfg, st) && i < |cfg.vals|
  {
    && |before.votes| == |block.votes| == |block.bits| == |cfg.vals|
    && block.votes == before.votes[i := Some(v)] && before.sum <= block.sum
    && BlockInv(cfg, st.votes, v.dataHash, block)
    && (if v.dataHash in st.blocks then before == st.blocks[v.dataHash]
        else before.sum < Quorum(cfg) && forall j :: 0 <= j < |before.votes| ==> before.votes[j] == None)
  }

  lemma CountedBlockHolds(cfg: Config, st: State, v: Vote, i: nat)
    requires GoodConfig(cfg) && Shaped(cfg, st) && BlocksInv(cfg, st) && i < |cfg.vals| && Stored(cfg, i, v)
    requires st.votes[i].Some? && (v.dataHash in st.blocks ==> st.blocks[v.dataHash].votes[i] == None)
    ensures var before := if v.dataHash in st.blocks then st.blocks[v.dataHash] else NewBlock(false, |cfg.vals|);
      CountedBlock(cfg, st, v, i, before, BlockAdd(before, v, i, cfg.vals[i].votingPower))
  {
    hide VotedPower, Stored, Quorum, TotalPower, BitsMatch, AllStored;
    QuorumPositive(cfg);
    NewBlockInv(cfg, st.votes, v.dataHash, false);
    var before := if v.dataHash in st.blocks then st.blocks[v.dataHash] else NewBlock(false, |cfg.vals|);
    BlockAddInv(cfg, st.votes, v.dataHash, before, v, i);
  }

  /** The canonical slot holds the vote itself, or a vote for another block that keeps its place. */
  ghost predicate SlotSettled(st: State, v: Vote, i: nat)
    requires i < |st.votes|
  {
    && st.votes[i].Some?
    && (st.votes[i] == Some(v) || (st.votes[i].value.dataHash != v.dataHash && st.maj23 != Some(v.dataHash)))
  }

  lemma CountedInv(cfg: Config, st: State, v: Vote, i: nat, before: BlockVotes, block: BlockVotes)
    requires Shaped(cfg, st) && i < |cfg.vals| && Placed(cfg, st, v, i) && SlotSettled(st, v, i)
    requires CountedBlock(cfg, st, v, i, before, block)
    requires st.maj23.Some? || block.sum < Quorum(cfg)
    ensures var next := st.(blocks := st.blocks[v.dataHash := block]);
      && Shaped(cfg, next) && BlocksInv(cfg, next) && VotesInv(cfg, next) && MajorityInv(cfg, next)
  {
    hide VotedPower, Stored, Quorum, TotalPower, BitsMatch, BlockInv, AllStored;
    var next := st.(blocks := st.blocks[v.dataHash := block]);
    forall h | h in next.blocks ensures |next.blocks[h].bits| == |next.blocks[h].votes| == |cfg.vals| {
    }
    forall j | 0 <= j < |next.votes| && next.votes[j].Some?
      ensures var h := next.votes[j].value.dataHash;
              InItsBlock(next, h, j)
    {
    }
  }

  lemma CopyOverSlots(cfg: Config, st: State, block: BlockVotes)
    requires |st.votes| == |block.votes| == |cfg.vals| && AllStored(cfg, st.votes) && AllStored(cfg, block.votes)
    requires BitsMatch(st.bits, st.votes)
    requires forall j :: 0 <= j < |st.votes| && block.votes[j].Some? ==> st.votes[j].Some?
    ensures var votes := CopyOver(st.votes, block.votes);
      && AllStored(cfg, votes) && BitsMatch(st.bits, votes) && VotedPower(cfg, votes) == VotedPower(cfg, st.votes)
      && Occupied(votes) == Occupied(st.votes)
      && forall j :: 0 <= j < |votes| ==> votes[j].Some? == st.votes[j].Some?
  {
    hide Stored;
    VotedPowerSame(cfg, st.votes, CopyOver(st.votes, block.votes));
    OccupiedSame(st.votes, CopyOver(st.votes, block.votes));
  }

  lemma CrossedInv(cfg: Config, st: State, v: Vote, i: nat, before: BlockVotes, block: BlockVotes)
    requires Shaped(cfg, st) && i < |cfg.vals| && Placed(cfg, st, v, i) && SlotSettled(st, v, i)
    requires CountedBlock(cfg, st, v, i, before, block)
    requires st.maj23 == None && block.sum >= Quorum(cfg)
    ensures var next := st.(blocks := st.blocks[v.dataHash := block], maj23 := Some(v.dataHash),
                            votes := CopyOver(st.votes, block.votes));
      && Shaped(cfg, next) && BlocksInv(cfg, next) && VotesInv(cfg, next) && MajorityInv(cfg, next)
      && Occupied(next.votes) == Occupied(st.votes)
  {
    hide VotedPower, Stored, Quorum, TotalPower, BitsMatch, AllStored, Occupied;
    var h := v.dataHash;
    var blocks, votes := st.blocks[h := block], CopyOver(st.votes, block.votes);
    CopyOverSlots(cfg, st, block);
    forall k | k in blocks ensures BlockInv(cfg, st.votes, k, blocks[k]) {
    }
    BlocksUnder(cfg, blocks, st.votes, votes);
  }

  /** Counting a placed vote restores the invariant. */
  lemma CountInv(cfg: Config, st: State, v: Vote, i: nat)
    requires GoodConfig(cfg) && Shaped(cfg, st) && i < |cfg.vals| && Placed(cfg, st, v, i) && Stored(cfg, i, v)
    requires SlotSettled(st, v, i) && (v.dataHash in st.blocks ==> st.blocks[v.dataHash].votes[i] == None)
    ensures var next := Count(cfg, st, v, i, cfg.vals[i].votingPower);
      && Shaped(cfg, next) && BlocksInv(cfg, next) && VotesInv(cfg, next) && MajorityInv(cfg, next)
      && Occupied(next.votes) == Occupied(st.votes)
  {
    hide VotedPower, Stored, Quorum, TotalPower, BitsMatch, BlockAdd, BlockInv, Occupied, CopyOver, AllStored;
    var h := v.dataHash;
    var before := if h in st.blocks then st.blocks[h] else NewBlock(false, |cfg.vals|);
    var block := BlockAdd(before, v, i, cfg.vals[i].votingPower);
    CountedBlockHolds(cfg, st, v, i);
    if before.sum < Quorum(cfg) <= block.sum && st.maj23 == None {
      CrossedInv(cfg, st, v, i, before, block);
    } else {
      BelowQuorum(cfg, st, v, i, before, block);
      CountedInv(cfg, st, v, i, before, block);
    }
  }

  lemma BelowQuorum(cfg: Config, st: State, v: Vote, i: nat, before: BlockVotes, block: BlockVotes)
    requires Shaped(cfg, st) && i < |cfg.vals| && MajorityInv(cfg, st)
    requires CountedBlock(cfg, st, v, i, before, block)
    requires !(before.sum < Quorum(cfg) <= block.sum && st.maj23 == None)
    ensures st.maj23.Some? || block.sum < Quorum(cfg)
  {
    hide Quorum, BlockInv;
    if st.maj23 == None && v.dataHash in st.blocks {
      assert !HasQuorum(cfg, st, v.dataHash);
    }
  }

  /** A vote that getVote does not know and every check lets through keeps the invariant. */
  lemma AddVerifiedInv(cfg: Config, st: State, v: Vote, i: nat)
    requires GoodConfig(cfg) && Inv(cfg, st) && i < |cfg.vals| && Stored(cfg, i, v) && Known(st, i, v.dataHash) == None
    ensures var next := AddVerified(cfg, st, v, i);
      && Shaped(cfg, next) && BlocksInv(cfg, next) && VotesInv(cfg, next) && MajorityInv(cfg, next) && BoundedInv(next)
      && Accepted(st, v, i, next)
  {
    hide VotedPower, Stored, Quorum, TotalPower, BitsMatch, BlockInv, Occupied, AllStored, VotesInv, MajorityInv,
         BlocksInv,
         GoodConfig, Placed, CopyOver, Place, Count, Known;
    var power := cfg.vals[i].votingPower;
    var placed := Place(st, v, i, power);
    PlaceInv(cfg, st, v, i);
    PlacedIsSettled(cfg, st, v, i);
    if Tracks(st, v, i) {
      CountInv(cfg, placed, v, i);
      BlockCount(st.blocks, v.dataHash, Count(cfg, placed, v, i, power).blocks[v.dataHash]);
    } else {
      NotTracked(cfg, st, v, i);
    }
  }

  lemma BlockCount(blocks: map<Hash, BlockVotes>, h: Hash, b: BlockVotes)
    ensures |blocks[h := b]| == |blocks| + if h in blocks then 0 else 1
  {
    assert blocks[h := b].Keys == blocks.Keys + {h};
    assert |blocks[h := b].Keys| == |blocks[h := b]| && |blocks.Keys| == |blocks|;
  }

  lemma PlacedIsSettled(cfg: Config, st: State, v: Vote, i: nat)
    requires Shaped(cfg, st) && i < |cfg.vals| && Known(st, i, v.dataHash) == None
    ensures var placed := Place(st, v, i, cfg.vals[i].votingPower);
      SlotSettled(placed, v, i) && (v.dataHash in placed.blocks ==> placed.blocks[v.dataHash].votes[i] == None)
  {
  }

  /** A conflicting vote nobody asked for leaves the set valid, also when it replaces a canonical vote. */
  lemma NotTracked(cfg: Config, st: State, v: Vote, i: nat)
    requires Inv(cfg, st) && i < |cfg.vals| && !Tracks(st, v, i) && Known(st, i, v.dataHash) == None
    requires Shaped(cfg, Place(st, v, i, cfg.vals[i].votingPower))
    requires Placed(cfg, Place(st, v, i, cfg.vals[i].votingPower), v, i)
    ensures var placed := Place(st, v, i, cfg.vals[i].votingPower);
      BlocksInv(cfg, placed) && VotesInv(cfg, placed) && MajorityInv(cfg, placed)
  {
    hide VotedPower, Stored, Quorum, TotalPower, BitsMatch, BlockInv, Occupied, AllStored;
  }

  /** What the bookkeeping of claims and of the signal needs to know about an accepted vote. */
  ghost predicate Accepted(st: State, v: Vote, i: nat, next: State)
    requires i < |st.votes|
  {
    && next.peers == st.peers && next.done == st.done && (st.maj23.Some? ==> next.maj23 == st.maj23)
    && (st.votes[i].Some? && !Tracks(st, v, i) ==> next.maj23 == st.maj23)
    && (forall h :: h in next.blocks ==> next.blocks[h].peerMaj23 == (h in st.blocks && st.blocks[h].peerMaj23))
    && (forall h :: h in st.blocks ==> h in next.blocks)
  }

  lemma PeersAfterAdd(st: State, v: Vote, i: nat, next: State)
    requires i < |st.votes| && PeersInv(st) && Accepted(st, v, i, next)
    ensures st.votes[i].Some? ==> PeersInv(next)
    ensures st.votes[i].None? ==> PeersInv(if next.maj23.Some? then next.(done := true) else next)
  {
  }

  lemma AddVoteInv(cfg: Config, st: State, vote: Option<Vote>)
    requires GoodConfig(cfg) && Inv(cfg, st)
    ensures Inv(cfg, AddVote(cfg, st, vote).0)
    ensures st.maj23.Some? ==> AddVote(cfg, st, vote).0.maj23 == st.maj23
    ensures st.done ==> AddVote(cfg, st, vote).0.done
  {
    hide VotedPower, BitsMatch, BlockInv, AllStored, VotesInv, MajorityInv, BlocksInv, GoodConfig, AddVerified, Known,
         Occupied, Verify, TotalPower, PeersInv, BoundedInv, Refusal, Tracks;
    if Refusal(cfg, st, vote) == None {
      var v, i := vote.value, vote.value.index;
      var next := AddVerified(cfg, st, v, i);
      AddVerifiedInv(cfg, st, v, i);
      PeersAfterAdd(st, v, i, next);
      DoneIsNoPart(cfg, next);
    }
  }

  lemma DoneIsNoPart(cfg: Config, st: State)
    requires Shaped(cfg, st) && BlocksInv(cfg, st) && VotesInv(cfg, st) && MajorityInv(cfg, st) && BoundedInv(st)
    ensures var closed := st.(done := true);
      && Shaped(cfg, closed) && BlocksInv(cfg, closed) && VotesInv(cfg, closed)
      && MajorityInv(cfg, closed) && BoundedInv(closed)
  {
    hide VotedPower, BitsMatch, BlockInv, AllStored, Occupied, TotalPower;
  }

  lemma ClaimInv(cfg: Config, st: State, peer: PeerID, h: Hash)
    requires GoodConfig(cfg) && Inv(cfg, st)
    ensures Inv(cfg, SetPeerMaj23(cfg, st, peer, h).0)
    ensures var next := SetPeerMaj23(cfg, st, peer, h).0;
      next.maj23 == st.maj23 && next.votes == st.votes && next.sum == st.sum && next.done == st.done
  {
    hide BlockInv, VotesInv, MajorityInv, BlocksInv, GoodConfig, Occupied, TotalPower, Quorum, NewBlock, PeersInv,
         BoundedInv;
    if peer !in st.peers {
      var block := if h in st.blocks then st.blocks[h].(peerMaj23 := true) else NewBlock(true, |cfg.vals|);
      ClaimedBlock(cfg, st, h);
      var next := st.(peers := st.peers[peer := h], blocks := st.blocks[h := block]);
      BlockReplaced(cfg, st, next, h, block);
      ClaimKeepsCounts(st, peer, h, block);
    }
  }

  lemma ClaimKeepsCounts(st: State, peer: PeerID, h: Hash, block: BlockVotes)
    requires PeersInv(st) && BoundedInv(st) && peer !in st.peers && block.peerMaj23
    ensures var next := st.(peers := st.peers[peer := h], blocks := st.blocks[h := block]);
      PeersInv(next) && BoundedInv(next)
  {
    hide BoundedInv;
    ClaimsBound(st, peer, h, block);
    var peers, blocks := st.peers[peer := h], st.blocks[h := block];
    assert peer in peers;
  }

  lemma ClaimsBound(st: State, peer: PeerID, h: Hash, block: BlockVotes)
    requires BoundedInv(st) && peer !in st.peers
    ensures BoundedInv(st.(peers := st.peers[peer := h], blocks := st.blocks[h := block]))
  {
    hide Occupied;
    BlockCount(st.blocks, h, block);
    assert st.peers[peer := h].Keys == st.peers.Keys + {peer};
    assert |st.peers[peer := h].Keys| == |st.peers[peer := h]| && |st.peers.Keys| == |st.peers|;
  }

  /** A block with the same votes and sum in place of another, or an empty new one. */
  lemma BlockReplaced(cfg: Config, st: State, next: State, h: Hash, block: BlockVotes)
    requires Shaped(cfg, st) && BlocksInv(cfg, st) && VotesInv(cfg, st) && MajorityInv(cfg, st)
    requires next == st.(peers := next.peers, blocks := st.blocks[h := block])
    requires BlockInv(cfg, st.votes, h, block) && |block.bits| == |block.votes| == |cfg.vals|
    requires h in st.blocks ==> block.votes == st.blocks[h].votes && block.sum == st.blocks[h].sum
    requires h !in st.blocks ==> block.sum < Quorum(cfg)
    ensures Shaped(cfg, next) && BlocksInv(cfg, next) && VotesInv(cfg, next) && MajorityInv(cfg, next)
  {
    hide BlockInv, VotedPower, AllStored, BitsMatch, Quorum;
    forall k | k in next.blocks && HasQuorum(cfg, next, k) ensures HasQuorum(cfg, st, k) {
    }
  }

  lemma ClaimedBlock(cfg: Config, st: State, h: Hash)
    requires GoodConfig(cfg) && Shaped(cfg, st) && BlocksInv(cfg, st)
    ensures var block := if h in st.blocks then st.blocks[h].(peerMaj23 := true) else NewBlock(true, |cfg.vals|);
      && BlockInv(cfg, st.votes, h, block) && block.peerMaj23
      && |block.bits| == |block.votes| == |cfg.vals|
      && (h in st.blocks ==> block.votes == st.blocks[h].votes && block.sum == st.blocks[h].sum)
      && (h !in st.blocks ==> block.sum < Quorum(cfg))
  {
    hide VotedPower, BitsMatch, AllStored, TotalPower, Quorum;
    QuorumPositive(cfg);
    NewBlockInv(cfg, st.votes, h, true);
    if h in st.blocks { assert BlockInv(cfg, st.votes, h, st.blocks[h]); }
  }

  /** Every reachable state satisfies the invariant. */
  lemma {:induction false} RunInv(cfg: Config, ops: seq<Op>)
    requires GoodConfig(cfg)
    ensures Inv(cfg, Run(cfg, ops))
  {
    hide Inv, GoodConfig, AddVote, SetPeerMaj23;
    if |ops| == 0 {
      NewInv(cfg);
    } else {
      var n := |ops| - 1;
      RunInv(cfg, ops[..n]);
      match ops[n] {
        case Add(vote) => AddVoteInv(cfg, Run(cfg, ops[..n]), vote);
        case Claim(peer, h) => ClaimInv(cfg, Run(cfg, ops[..n]), peer, h);
      }
    }
  }

  /** The majority, once set, never changes, and the wake-up signal is never withdrawn. */
  lemma {:induction false} MajorityIsFinal(cfg: Config, ops: seq<Op>, more: seq<Op>)
    requires GoodConfig(cfg)
    ensures Run(cfg, ops).maj23.Some? ==> Run(cfg, ops + more).maj23 == Run(cfg, ops).maj23
    ensures Run(cfg, ops).done ==> Run(cfg, ops + more).done
  {
    hide Inv, GoodConfig, AddVote, SetPeerMaj23;
    if |more| == 0 {
      assert ops + more == ops;
    } else {
      var n := |more| - 1;
      var front := ops + more[..n];
      assert (ops + more)[..|ops + more| - 1] == front;
      MajorityIsFinal(cfg, ops, more[..n]);
      RunInv(cfg, front);
      match more[n] {
        case Add(vote) => AddVoteInv(cfg, Run(cfg, front), vote);
        case Claim(peer, h) => ClaimInv(cfg, Run(cfg, front), peer, h);
      }
    }
  }

  /** Without peer claims the signal is given exactly when a block has reached quorum. */
  lemma {:induction false} DoneWithoutClaims(cfg: Config, ops: seq<Op>)
    requires GoodConfig(cfg) && forall i :: 0 <= i < |ops| ==> ops[i].Add?
    ensures Run(cfg, ops).done <==> exists h :: HasQuorum(cfg, Run(cfg, ops), h)
    ensures Run(cfg, ops).done == Run(cfg, ops).maj23.Some?
  {
    hide VotesInv, BlocksInv, BoundedInv, GoodConfig;
    RunInv(cfg, ops);
    NoClaimsNoPeers(cfg, ops);
    var st := Run(cfg, ops);
    if st.maj23.Some? { assert HasQuorum(cfg, st, st.maj23.value); }
  }

  lemma {:induction false} NoClaimsNoPeers(cfg: Config, ops: seq<Op>)
    requires forall i :: 0 <= i < |ops| ==> ops[i].Add?
    ensures Run(cfg, ops).peers == map[]
  {
    hide AddVote;
    if |ops| > 0 {
      NoClaimsNoPeers(cfg, ops[..|ops| - 1]);
      PeersKept(cfg, Run(cfg, ops[..|ops| - 1]), ops[|ops| - 1].vote);
    }
  }

  lemma PeersKept(cfg: Config, st: State, vote: Option<Vote>)
    requires Shaped(cfg, st)
    ensures AddVote(cfg, st, vote).0.peers == st.peers
  {
    hide Refusal, Tracks, AddVerified;
  }
}
