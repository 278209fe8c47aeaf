/** The vote-tallying state machine on values: one transition per AddVote and SetPeerMaj23. */
module VoteSets {
  import opened Bytes
  import opened Options
  import opened Proposers
  import opened Varints
  import opened Votes

  type PeerID = ByteString
  type Slots = seq<Option<Vote>>

  /** What a vote set is created with. */
  datatype Config = Config(chainID: ByteString, msgType: Int32, vals: seq<Proposer>, crypto: Crypto)

  datatype BlockVotes = BlockVotes(peerMaj23: bool, bits: seq<bool>, votes: Slots, sum: int)

  datatype State = State(
    bits: seq<bool>,
    votes: Slots,
    sum: int,
    maj23: Option<Hash>,
    blocks: map<Hash, BlockVotes>,
    peers: map<PeerID, Hash>,
    done: bool)

  datatype VoteError =
    | NilVote
    | InvalidIndex
    | InvalidAddress
    | UnexpectedStep
    | NonDeterministicSignature
    | InvalidSignature

  datatype AddResult =
    | Added
    | Conflicting(added: bool, existing: Vote)
    | Duplicate
    | Rejected(error: VoteError)
    | SignBytesPanic

  /** The validator set behind a vote set: non-negative powers below the cap, and indices that fit an int32. */
  ghost predicate GoodConfig(cfg: Config) {
    && (forall i :: 0 <= i < |cfg.vals| ==> 0 <= cfg.vals[i].votingPower)
    && TotalPower(cfg.vals) <= MAX_TOTAL_VOTING_POWER
    && |cfg.vals| <= 0x7FFF_FFFF
  }

  function Quorum(cfg: Config): int { TotalPower(cfg.vals) * 2 / 3 + 1 }

  function NoBits(n: nat): (r: seq<bool>) ensures |r| == n { seq(n, i => false) }

  function NoVotes(n: nat): (r: Slots) ensures |r| == n { seq(n, i => None) }

  function NewBlock(peerMaj23: bool, n: nat): BlockVotes { BlockVotes(peerMaj23, NoBits(n), NoVotes(n), 0) }

  function NewState(cfg: Config): State {
    var n := |cfg.vals|;
    State(NoBits(n), NoVotes(n), 0, None, map[], map[], false)
  }

  /** The lengths every operation relies on. */
  ghost predicate Shaped(cfg: Config, st: State) {
    && |st.bits| == |st.votes| == |cfg.vals|
    && forall h :: h in st.blocks ==> |st.blocks[h].bits| == |st.blocks[h].votes| == |cfg.vals|
  }

  /** getVote. */
  function Known(st: State, i: nat, h: Hash): Option<Vote>
    requires i < |st.votes| && (h in st.blocks ==> i < |st.blocks[h].votes|)
  {
    if st.votes[i].Some? && st.votes[i].value.dataHash == h then st.votes[i]
    else if h in st.blocks then st.blocks[h].votes[i]
    else None
  }

  /** blockVotes.addVerifiedVote. */
  function BlockAdd(b: BlockVotes, v: Vote, i: nat, power: int): (r: BlockVotes)
    requires i < |b.votes| == |b.bits|
    ensures |r.votes| == |b.votes| && |r.bits| == |b.bits| && r.peerMaj23 == b.peerMaj23
  {
    if b.votes[i].None? then b.(bits := b.bits[i := true], votes := b.votes[i := Some(v)], sum := b.sum + power)
    else b
  }

  /** The canonical list after the votes of a block have been copied over it. */
  function CopyOver(votes: Slots, from: Slots): (r: Slots)
    requires |votes| == |from|
    ensures |r| == |votes|
  {
    seq(|votes|, i requires 0 <= i < |votes| => if from[i].Some? then from[i] else votes[i])
  }

  /** The first half of addVerifiedVote: the canonical list. */
  function Place(st: State, v: Vote, i: nat, power: int): (r: State)
    requires i < |st.votes| == |st.bits|
    ensures |r.votes| == |st.votes| && |r.bits| == |st.bits| && r.blocks == st.blocks
    ensures r.maj23 == st.maj23 && r.peers == st.peers && r.done == st.done
  {
    if st.votes[i].Some? then
      if st.maj23 == Some(v.dataHash) then st.(votes := st.votes[i := Some(v)], bits := st.bits[i := true]) else st
    else st.(votes := st.votes[i := Some(v)], bits := st.bits[i := true], sum := st.sum + power)
  }

  /** Whether the second half goes on to the block: no conflict, or a peer claims the block. */
  predicate Tracks(st: State, v: Vote, i: nat)
    requires i < |st.votes|
  {
    st.votes[i].None? || (v.dataHash in st.blocks && st.blocks[v.dataHash].peerMaj23)
  }

  /** The second half of addVerifiedVote: the block, and the majority when it is just reached. */
  function Count(cfg: Config, st: State, v: Vote, i: nat, power: int): (r: State)
    requires i < |st.votes| == |st.bits| == |cfg.vals|
    requires v.dataHash in st.blocks ==>
               |st.blocks[v.dataHash].votes| == |st.blocks[v.dataHash].bits| == |cfg.vals|
    ensures |r.votes| == |st.votes| && r.bits == st.bits && r.peers == st.peers && r.done == st.done
    ensures v.dataHash in r.blocks && r.blocks == st.blocks[v.dataHash := r.blocks[v.dataHash]]
    ensures r.blocks[v.dataHash].peerMaj23 == (v.dataHash in st.blocks && st.blocks[v.dataHash].peerMaj23)
    ensures st.maj23.Some? ==> r.maj23 == st.maj23
  {
    var h := v.dataHash;
    var before := if h in st.blocks then st.blocks[h] else NewBlock(false, |cfg.vals|);
    var block := BlockAdd(before, v, i, power);
    var counted := st.(blocks := st.blocks[h := block]);
    if before.sum < Quorum(cfg) <= block.sum && st.maj23 == None
    then counted.(maj23 := Some(h), votes := CopyOver(st.votes, block.votes))
    else counted
  }

  /** addVerifiedVote of a vote that getVote does not know. */
  function AddVerified(cfg: Config, st: State, v: Vote, i: nat): (r: State)
    requires Shaped(cfg, st) && i < |cfg.vals|
    ensures r.peers == st.peers && r.done == st.done && (st.maj23.Some? ==> r.maj23 == st.maj23)
  {
    var power := cfg.vals[i].votingPower;
    var placed := Place(st, v, i, power);
    if Tracks(st, v, i) then Count(cfg, placed, v, i, power) else placed
  }

  /** The checks of addVote in their order; Some is the result without any change of state. */
  function Refusal(cfg: Config, st: State, vote: Option<Vote>): (r: Option<AddResult>)
    requires Shaped(cfg, st)
    ensures r == None ==> vote.Some? && 0 <= vote.value.index < |cfg.vals|
    ensures r == None ==> Verify(cfg.crypto, cfg.chainID, cfg.vals[vote.value.index].pubKey, vote.value) == Valid
    ensures r == None ==> vote.value.msgType == cfg.msgType && Known(st, vote.value.index, vote.value.dataHash) == None
    ensures r == None ==> vote.value.address == cfg.vals[vote.value.index].address && vote.value.address != []
    ensures r.Some? ==> r.value.Duplicate? || r.value.Rejected? || r.value.SignBytesPanic?
  {
    match vote
    case None => Some(Rejected(NilVote))
    case Some(v) =>
      if v.index < 0 then Some(Rejected(InvalidIndex))
      else if v.address == [] then Some(Rejected(InvalidAddress))
      else if v.msgType != cfg.msgType then Some(Rejected(UnexpectedStep))
      else if v.index >= |cfg.vals| then Some(Rejected(InvalidIndex))
      else if v.address != cfg.vals[v.index].address then Some(Rejected(InvalidAddress))
      else
        match Known(st, v.index, v.dataHash)
        case Some(known) =>
          if known.signature == v.signature then Some(Duplicate) else Some(Rejected(NonDeterministicSignature))
        case None =>
          match Verify(cfg.crypto, cfg.chainID, cfg.vals[v.index].pubKey, v)
          case WrongAddress => Some(Rejected(InvalidAddress))
          case WrongSignature => Some(Rejected(InvalidSignature))
          case CannotEncode => Some(SignBytesPanic)
          case Valid => None
  }

  /** AddVote. */
  function AddVote(cfg: Config, st: State, vote: Option<Vote>): (State, AddResult)
    requires Shaped(cfg, st)
  {
    match Refusal(cfg, st, vote)
    case Some(result) => (st, result)
    case None =>
      var v, i := vote.value, vote.value.index;
      var next := AddVerified(cfg, st, v, i);
      match st.votes[i]
      case Some(existing) => (next, Conflicting(Tracks(st, v, i), existing))
      case None => (if next.maj23.Some? then next.(done := true) else next, Added)
  }

  /** SetPeerMaj23; false is the error on a second, different claim of the same peer. */
  function SetPeerMaj23(cfg: Config, st: State, peer: PeerID, h: Hash): (State, bool) {
    if peer in st.peers then (st, st.peers[peer] == h)
    else
      var block := if h in st.blocks then st.blocks[h].(peerMaj23 := true) else NewBlock(true, |cfg.vals|);
      (st.(peers := st.peers[peer := h], blocks := st.blocks[h := block]), true)
  }

  // ---- runs

  datatype Op = Add(vote: Option<Vote>) | Claim(peer: PeerID, hash: Hash)

  function Apply(cfg: Config, st: State, op: Op): State
    requires Shaped(cfg, st)
  {
    match op
    case Add(vote) => AddVote(cfg, st, vote).0
    case Claim(peer, h) => SetPeerMaj23(cfg, st, peer, h).0
  }

  lemma CountShaped(cfg: Config, st: State, v: Vote, i: nat, power: int)
    requires Shaped(cfg, st) && i < |cfg.vals|
    ensures Shaped(cfg, Count(cfg, st, v, i, power))
  {
    hide Quorum, BlockAdd;
  }

  lemma AddVerifiedShaped(cfg: Config, st: State, v: Vote, i: nat)
    requires Shaped(cfg, st) && i < |cfg.vals|
    ensures Shaped(cfg, AddVerified(cfg, st, v, i))
  {
    hide Count, Place;
    var power := cfg.vals[i].votingPower;
    CountShaped(cfg, Place(st, v, i, power), v, i, power);
  }

  lemma AddVoteShaped(cfg: Config, st: State, vote: Option<Vote>)
    requires Shaped(cfg, st)
    ensures Shaped(cfg, AddVote(cfg, st, vote).0)
  {
    hide AddVerified, Refusal, Tracks;
    if Refusal(cfg, st, vote) == None {
      AddVerifiedShaped(cfg, st, vote.value, vote.value.index);
    }
  }

  lemma ApplyShaped(cfg: Config, st: State, op: Op)
    requires Shaped(cfg, st)
    ensures Shaped(cfg, Apply(cfg, st, op))
  {
    hide AddVote;
    if op.Add? { AddVoteShaped(cfg, st, op.vote); }
  }

  /** The state after a sequence of calls on a new vote set. */
  ghost function Run(cfg: Config, ops: seq<Op>): (st: State)
    ensures Shaped(cfg, st)
  {
    if |ops| == 0 then NewState(cfg)
    else
      var before := Run(cfg, ops[..|ops| - 1]);
      ApplyShaped(cfg, before, ops[|ops| - 1]);
      Apply(cfg, before, ops[|ops| - 1])
  }
}
