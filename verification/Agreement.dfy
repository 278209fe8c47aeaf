/** One round of agreement among honest and arbitrary validators, as a step system. */
module Agreement {
  import opened Bytes
  import opened Options
  import opened Sums
  import opened Proposers
  import opened Quorums
  import opened Varints
  import opened Canonical
  import opened Votes
  import opened Proposals
  import opened VoteSets
  import opened VoteSetInvariant
  import opened VoteOrigins
  import opened Tallies
  import opened Commits
  import CommitValidity
  import Certificates

  /** What all nodes share: the identifier of the agreement, the validator set with its proposer, and who is honest. */
  datatype Setup = Setup(chainID: ByteString, vals: seq<Proposer>, proposer: nat, crypto: Crypto, honest: seq<bool>)

  datatype Phase =
    | Idle
    | Proposing
    | Prevoting(data: ByteString, hash: Hash)
    | Precommitting(data: ByteString, hash: Hash)
    | Returned(data: ByteString, hash: Hash, commit: Commit)
    | Failed

  /** One honest node: its place in AgreeOn, propCh, the two vote sets, and what its key has signed. */
  datatype Node = Node(
    phase: Phase,
    inbox: Option<ByteString>,
    prevotes: State,
    precommits: State,
    voted: Option<Hash>,
    signed: set<ByteString>)

  type Net = seq<Node>

  datatype Event =
    | Start(node: nat, data: ByteString, t: Time)
    | ReceiveProposal(node: nat, data: ByteString, t: Time, signature: Signature)
    | Prevote(node: nat, hash: Hash, t: Time)
    | Precommit(node: nat, t: Time)
    | Return(node: nat)
    | ReceiveVote(node: nat, vote: Vote)
    | Fail(node: nat)

  ghost predicate GoodSetup(s: Setup) {
    && |s.honest| == |s.vals| <= 0x7FFF_FFFF && s.proposer < |s.vals|
    && NonNegative(s.vals) && TotalPower(s.vals) <= MAX_TOTAL_VOTING_POWER
    && TimesRoundTrip(s.crypto.times)
  }

  function Cfg(s: Setup, msgType: Int32): Config { Config(s.chainID, msgType, s.vals, s.crypto) }

  function Faulty(s: Setup): (r: seq<bool>)
    ensures |r| == |s.honest|
  {
    seq(|s.honest|, i requires 0 <= i < |s.honest| => !s.honest[i])
  }

  function NewNode(s: Setup): Node {
    Node(Idle, None, NewState(Cfg(s, PREVOTE_TYPE)), NewState(Cfg(s, PRECOMMIT_TYPE)), None, {})
  }

  function NewNet(s: Setup): Net { seq(|s.vals|, i => NewNode(s)) }

  // ---- the index AgreeOn votes under

  /** The last entry of the set with the key, or -1. */
  function SelfIndex(vals: seq<Proposer>, pk: PubKey): (i: int)
    ensures -1 <= i < |vals|
    ensures i >= 0 ==> vals[i].pubKey == pk
    ensures forall j :: i < j < |vals| ==> vals[j].pubKey != pk
  {
    if |vals| == 0 then -1
    else if vals[|vals| - 1].pubKey == pk then |vals| - 1
    else SelfIndex(vals[..|vals| - 1], pk)
  }

  method FindSelf(vals: seq<Proposer>, pk: PubKey) returns (index: int)
    ensures index == SelfIndex(vals, pk)
  {
    index := -1;
    for i := 0 to |vals|
      invariant -1 <= index < i
      invariant index >= 0 ==> vals[index].pubKey == pk
      invariant forall j :: index < j < i ==> vals[j].pubKey != pk
    {
      if vals[i].pubKey == pk {
        index := i;
      }
    }
  }

  // ---- messages

  /** Vote.ValidateBasic, with 20-byte addresses and signatures of at most 64 bytes. */
  predicate ValidateBasic(v: Vote) {
    && (v.msgType == PREVOTE_TYPE || v.msgType == PRECOMMIT_TYPE) && ValidHash(v.dataHash)
    && |v.address| == 20 && v.index >= 0 && 0 < |v.signature| <= 64
  }

  /** A signature that verifies under an honest key was made by its holder; anything else may be sent by anyone. */
  ghost predicate Unforged(s: Setup, net: Net, v: Vote)
    requires |net| == |s.vals| == |s.honest|
  {
    forall j :: 0 <= j < |net| && s.honest[j] && VoteBytes(s.crypto, s.chainID, v).Some?
                && s.crypto.verify(s.vals[j].pubKey, VoteBytes(s.crypto, s.chainID, v).value, v.signature) ==>
      VoteBytes(s.crypto, s.chainID, v).value in net[j].signed
  }

  // ---- steps

  /** What the node itself needs for the event. */
  predicate Ready(s: Setup, node: Node, e: Event)
    requires e.node < |s.vals| && s.proposer < |s.vals|
  {
    match e
    case Start(i, _, _) => node.phase == Idle && SelfIndex(s.vals, s.vals[i].pubKey) == i
    case ReceiveProposal(_, data, t, signature) =>
      && node.phase != Idle && node.inbox == None
      && ProposalBytes(s.crypto.times, s.chainID, data, t).Some?
      && s.crypto.verify(s.vals[s.proposer].pubKey, ProposalBytes(s.crypto.times, s.chainID, data, t).value, signature)
    case Prevote(_, h, t) =>
      node.phase == Proposing && node.inbox.Some? && SignBytes(s.crypto.times, s.chainID, PREVOTE_TYPE, h, t).Some?
    case Precommit(_, t) =>
      && node.phase.Prevoting? && node.prevotes.done
      && SignBytes(s.crypto.times, s.chainID, PRECOMMIT_TYPE, node.phase.hash, t).Some?
    case Return(_) => node.phase.Precommitting? && node.precommits.done
    case ReceiveVote(_, v) => node.phase != Idle && ValidateBasic(v)
    case Fail(_) => node.phase != Idle
  }

  ghost predicate Enabled(s: Setup, net: Net, e: Event)
    requires |net| == |s.vals| == |s.honest| && s.proposer < |s.vals|
  {
    && e.node < |net| && s.honest[e.node] && Ready(s, net[e.node], e)
    && (e.ReceiveVote? ==> Unforged(s, net, e.vote))
  }

  lemma AddVoteShapes(s: Setup, node: Node)
    requires ShapedNode(s, node)
    ensures forall v :: Shaped(Cfg(s, PREVOTE_TYPE), AddVote(Cfg(s, PREVOTE_TYPE), node.prevotes, Some(v)).0)
    ensures forall v :: Shaped(Cfg(s, PRECOMMIT_TYPE), AddVote(Cfg(s, PRECOMMIT_TYPE), node.precommits, Some(v)).0)
  {
    hide Shaped, AddVote;
    forall v ensures Shaped(Cfg(s, PREVOTE_TYPE), AddVote(Cfg(s, PREVOTE_TYPE), node.prevotes, Some(v)).0) {
      AddVoteShaped(Cfg(s, PREVOTE_TYPE), node.prevotes, Some(v));
    }
    forall v ensures Shaped(Cfg(s, PRECOMMIT_TYPE), AddVote(Cfg(s, PRECOMMIT_TYPE), node.precommits, Some(v)).0) {
      AddVoteShaped(Cfg(s, PRECOMMIT_TYPE), node.precommits, Some(v));
    }
  }

  ghost predicate ShapedNet(s: Setup, net: Net) {
    && |net| == |s.vals| == |s.honest| && s.proposer < |s.vals|
    && forall i :: 0 <= i < |net| ==> ShapedNode(s, net[i])
  }

  ghost predicate ShapedNode(s: Setup, node: Node) {
    Shaped(Cfg(s, PREVOTE_TYPE), node.prevotes) && Shaped(Cfg(s, PRECOMMIT_TYPE), node.precommits)
  }

  /** The node after its step. */
  ghost function NodeAfter(s: Setup, node: Node, e: Event): (r: Node)
    requires e.node < |s.vals| && s.proposer < |s.vals| && ShapedNode(s, node) && Ready(s, node, e)
    ensures ShapedNode(s, r)
  {
    AddVoteShapes(s, node);
    match e
    case Start(i, data, t) =>
      // isProposer compares the proposer's address with that of the node's own key
      if s.vals[s.proposer].address == s.crypto.addressOf(s.vals[i].pubKey) then
        match ProposalBytes(s.crypto.times, s.chainID, data, t)
        case None => node.(phase := Failed)
        case Some(bytes) => node.(phase := Proposing, signed := node.signed + {bytes})
      else node.(phase := Proposing)
    case ReceiveProposal(_, data, _, _) => node.(inbox := Some(data))
    case Prevote(_, h, t) =>
      node.(phase := Prevoting(node.inbox.value, h), inbox := None, voted := Some(h),
            signed := node.signed + {SignBytes(s.crypto.times, s.chainID, PREVOTE_TYPE, h, t).value})
    case Precommit(_, t) =>
      node.(phase := Precommitting(node.phase.data, node.phase.hash),
            signed := node.signed + {SignBytes(s.crypto.times, s.chainID, PRECOMMIT_TYPE, node.phase.hash, t).value})
    case Return(_) =>
      (match MakeCommit(Cfg(s, PRECOMMIT_TYPE), node.precommits)
       case None => node.(phase := Failed)
       case Some(c) => node.(phase := Returned(node.phase.data, node.phase.hash, c)))
    case ReceiveVote(_, v) =>
      if v.msgType == PREVOTE_TYPE then node.(prevotes := AddVote(Cfg(s, PREVOTE_TYPE), node.prevotes, Some(v)).0)
      else node.(precommits := AddVote(Cfg(s, PRECOMMIT_TYPE), node.precommits, Some(v)).0)
    case Fail(_) => node.(phase := Failed)
  }

  ghost function NodeStep(s: Setup, net: Net, e: Event): (r: Node)
    requires ShapedNet(s, net) && Enabled(s, net, e)
    ensures ShapedNode(s, r)
  {
    NodeAfter(s, net[e.node], e)
  }

  ghost function NetStep(s: Setup, net: Net, e: Event): (r: Net)
    requires ShapedNet(s, net) && Enabled(s, net, e)
    ensures ShapedNet(s, r)
  {
    net[e.node := NodeStep(s, net, e)]
  }

  /** The net after a run, or nothing if some event was not enabled. */
  ghost function NetRun(s: Setup, events: seq<Event>): (r: Option<Net>)
    requires GoodSetup(s)
    ensures r.Some? ==> ShapedNet(s, r.value)
  {
    if |events| == 0 then Some(NewNet(s))
    else
      var e := events[|events| - 1];
      match NetRun(s, events[..|events| - 1])
      case None => None
      case Some(net) => if Enabled(s, net, e) then Some(NetStep(s, net, e)) else None
  }

  // ---- the invariant

  /** The bytes are those of some proposal. */
  ghost predicate IsProposal(s: Setup, bytes: ByteString) {
    exists data, t :: ProposalBytes(s.crypto.times, s.chainID, data, t) == Some(bytes)
  }

  /** The bytes are those of some prevote or precommit for the hash. */
  ghost predicate IsVoteFor(s: Setup, bytes: ByteString, h: Hash) {
    exists m: Int32, t ::
      (m == PREVOTE_TYPE || m == PRECOMMIT_TYPE) && SignBytes(s.crypto.times, s.chainID, m, h, t) == Some(bytes)
  }

  /** An honest node signs votes for one hash only, the one its validation returned. */
  ghost predicate SignedInv(s: Setup, node: Node) {
    forall b :: b in node.signed ==> IsProposal(s, b) || (node.voted.Some? && IsVoteFor(s, b, node.voted.value))
  }

  ghost predicate PhaseInv(s: Setup, node: Node) {
    && (node.phase.Idle? || node.phase.Proposing? ==> node.voted == None)
    && (node.phase.Prevoting? || node.phase.Precommitting? || node.phase.Returned? ==>
          node.voted == Some(node.phase.hash))
    && (node.phase.Returned? ==> CommitInv(s, node))
  }

  /** What a returned commit says: it is for the majority, and it is a certificate unless that is nil. */
  ghost predicate CommitInv(s: Setup, node: Node)
    requires node.phase.Returned?
  {
    var c := node.phase.commit;
    && node.precommits.maj23 == Some(c.dataHash)
    && (Certificates.Certifies(s.crypto, s.chainID, s.vals, c.dataHash, c) <==> IsComplete(c.dataHash))
  }

  ghost predicate SetInv(cfg: Config, st: State) { Inv(cfg, st) && st.peers == map[] }

  /** Whatever a vote set holds under an honest index is a vote of that node. */
  ghost predicate Faithful(s: Setup, net: Net, st: State)
    requires |net| == |s.vals| == |s.honest|
  {
    forall j: nat, w :: j < |net| && s.honest[j] && Holds(st, j, w) ==> net[j].voted == Some(w.dataHash)
  }

  ghost predicate NodeInv(s: Setup, node: Node) {
    && SignedInv(s, node) && PhaseInv(s, node)
    && SetInv(Cfg(s, PREVOTE_TYPE), node.prevotes) && SetInv(Cfg(s, PRECOMMIT_TYPE), node.precommits)
  }

  ghost predicate NetInv(s: Setup, net: Net) {
    && |net| == |s.vals| == |s.honest|
    && (forall i :: 0 <= i < |net| ==> NodeInv(s, net[i]))
    && (forall i :: 0 <= i < |net| ==> Faithful(s, net, net[i].prevotes) && Faithful(s, net, net[i].precommits))
  }

  lemma CfgIsGood(s: Setup, m: Int32)
    requires GoodSetup(s)
    ensures GoodConfig(Cfg(s, m))
  {
  }

  lemma NewNetInv(s: Setup)
    requires GoodSetup(s)
    ensures NetInv(s, NewNet(s))
  {
    hide NewState, Inv, Holds, GoodConfig, TimesRoundTrip, TotalPower;
    NewSetInv(s, PREVOTE_TYPE);
    NewSetInv(s, PRECOMMIT_TYPE);
    var net := NewNet(s);
    forall j: nat, w ensures !Holds(NewState(Cfg(s, PREVOTE_TYPE)), j, w) {
      NothingHeld(Cfg(s, PREVOTE_TYPE), j, w);
    }
    forall j: nat, w ensures !Holds(NewState(Cfg(s, PRECOMMIT_TYPE)), j, w) {
      NothingHeld(Cfg(s, PRECOMMIT_TYPE), j, w);
    }
  }

  lemma NewSetInv(s: Setup, m: Int32)
    requires GoodSetup(s)
    ensures SetInv(Cfg(s, m), NewState(Cfg(s, m)))
  {
    hide Inv;
    NewInv(Cfg(s, m));
  }

  /** A vote that verifies under an honest key is for the hash its holder voted for. */
  lemma HonestVote(s: Setup, net: Net, v: Vote)
    requires GoodSetup(s) && |net| == |s.vals| && Unforged(s, net, v) && ValidateBasic(v)
    requires 0 <= v.index < |s.vals| && s.honest[v.index] && SignedInv(s, net[v.index])
    requires Verify(s.crypto, s.chainID, s.vals[v.index].pubKey, v) == Valid
    ensures net[v.index].voted == Some(v.dataHash)
  {
    hide SignBytes, ProposalBytes, TotalPower;
    var node, bytes := net[v.index], VoteBytes(s.crypto, s.chainID, v).value;
    assert bytes in node.signed;
    if IsProposal(s, bytes) {
      NoProposal(s, v, bytes);
    } else {
      var m: Int32, t :| (m == PREVOTE_TYPE || m == PRECOMMIT_TYPE)
                         && SignBytes(s.crypto.times, s.chainID, m, node.voted.value, t) == Some(bytes);
      SignBytesInjective(s.crypto.times, s.chainID, v.msgType, v.dataHash, v.timestamp,
                         s.chainID, m, node.voted.value, t);
    }
  }

  lemma NoProposal(s: Setup, v: Vote, bytes: ByteString)
    requires ValidateBasic(v) && VoteBytes(s.crypto, s.chainID, v) == Some(bytes)
    ensures !IsProposal(s, bytes)
  {
    hide SignBytes, ProposalBytes;
    forall data, t ensures ProposalBytes(s.crypto.times, s.chainID, data, t) != Some(bytes) {
      if ProposalBytes(s.crypto.times, s.chainID, data, t).Some? {
        ProposalIsNoVote(s.crypto.times, s.chainID, data, t, s.chainID, v.msgType, v.dataHash, v.timestamp);
      }
    }
  }

  lemma FaithfulAfterVote(s: Setup, net: Net, m: Int32, st: State, v: Vote)
    requires GoodSetup(s) && NetInv(s, net) && SetInv(Cfg(s, m), st) && Faithful(s, net, st)
    requires Unforged(s, net, v) && ValidateBasic(v)
    ensures Faithful(s, net, AddVote(Cfg(s, m), st, Some(v)).0)
  {
    hide SignBytes, ProposalBytes, TotalPower, AddVote, Holds, Refusal, Verify, Unforged, ValidateBasic, SignedInv,
         PhaseInv,
         BlocksInv, VotesInv, MajorityInv, PeersInv, BoundedInv, TimesRoundTrip;
    forall j: nat, w | j < |net| && s.honest[j] && Holds(AddVote(Cfg(s, m), st, Some(v)).0, j, w)
      ensures net[j].voted == Some(w.dataHash)
    {
      AddVoteOrigin(Cfg(s, m), st, Some(v), j, w);
      if !Holds(st, j, w) {
        assert NodeInv(s, net[v.index]);
        HonestVote(s, net, v);
      }
    }
  }

  lemma SetInvAfterVote(s: Setup, m: Int32, st: State, v: Vote)
    requires GoodSetup(s) && SetInv(Cfg(s, m), st)
    ensures var next := AddVote(Cfg(s, m), st, Some(v)).0;
      SetInv(Cfg(s, m), next) && (st.maj23.Some? ==> next.maj23 == st.maj23)
  {
    hide AddVote, BlocksInv, VotesInv, MajorityInv, PeersInv, BoundedInv, TimesRoundTrip, Shaped;
    CfgIsGood(s, m);
    AddVoteInv(Cfg(s, m), st, Some(v));
    PeersKept(Cfg(s, m), st, Some(v));
  }

  /** No step takes back a vote's hash, so what was faithful stays so. */
  lemma FaithfulKept(s: Setup, net: Net, next: Net, st: State)
    requires |net| == |next| == |s.vals| == |s.honest| && Faithful(s, net, st)
    requires forall j :: 0 <= j < |net| && net[j].voted.Some? ==> next[j].voted == net[j].voted
    ensures Faithful(s, next, st)
  {
    hide Holds;
  }

  // ---- every step keeps the invariant

  lemma SignedMore(s: Setup, node: Node, next: Node, bytes: ByteString)
    requires SignedInv(s, node) && (node.voted.Some? ==> next.voted == node.voted)
    requires next.signed == node.signed || next.signed == node.signed + {bytes}
    requires bytes in next.signed ==>
               || bytes in node.signed || IsProposal(s, bytes)
               || (next.voted.Some? && IsVoteFor(s, bytes, next.voted.value))
    ensures SignedInv(s, next)
  {
    hide IsProposal, IsVoteFor;
  }

  /** The steps that only move the phase and sign. */
  lemma PhaseStep(s: Setup, net: Net, e: Event)
    requires GoodSetup(s) && NetInv(s, net) && ShapedNet(s, net) && Enabled(s, net, e) && !e.ReceiveVote? && !e.Return?
    ensures NodeInv(s, NodeStep(s, net, e))
    ensures net[e.node].voted.Some? ==> NodeStep(s, net, e).voted == net[e.node].voted
  {
    hide SignBytes, ProposalBytes, TotalPower, AddVote, SetInv, Faithful, IsProposal, IsVoteFor, Unforged,
         TimesRoundTrip,
         SignedInv, Shaped, Certificates.Certifies;
    var node, next := net[e.node], NodeStep(s, net, e);
    assert NodeInv(s, node);
    match e {
      case Start(_, data, t) =>
        SignedProposal(s, node, next, data, t);
      case Prevote(_, h, t) =>
        SignedVote(s, node, next, PREVOTE_TYPE, h, t);
      case Precommit(_, t) =>
        SignedVote(s, node, next, PRECOMMIT_TYPE, node.phase.hash, t);
      case _ => SignedMore(s, node, next, []);
    }
  }

  lemma SignedProposal(s: Setup, node: Node, next: Node, data: ByteString, t: Time)
    requires SignedInv(s, node) && node.voted == next.voted
    requires next.signed == node.signed
             || (ProposalBytes(s.crypto.times, s.chainID, data, t).Some?
                 && next.signed == node.signed + {ProposalBytes(s.crypto.times, s.chainID, data, t).value})
    ensures SignedInv(s, next)
  {
    hide ProposalBytes, IsVoteFor;
    var bytes := ProposalBytes(s.crypto.times, s.chainID, data, t);
    if bytes.Some? { assert IsProposal(s, bytes.value); }
  }

  lemma SignedVote(s: Setup, node: Node, next: Node, m: Int32, h: Hash, t: Time)
    requires SignedInv(s, node) && (node.voted.Some? ==> next.voted == node.voted) && next.voted == Some(h)
    requires m == PREVOTE_TYPE || m == PRECOMMIT_TYPE
    requires SignBytes(s.crypto.times, s.chainID, m, h, t).Some?
    requires next.signed == node.signed + {SignBytes(s.crypto.times, s.chainID, m, h, t).value}
    ensures SignedInv(s, next)
  {
    hide SignBytes, IsProposal;
    assert IsVoteFor(s, SignBytes(s.crypto.times, s.chainID, m, h, t).value, h);
  }

  /** AgreeOn returns: the signal means a majority, so MakeCommit does not panic and its commit is a certificate. */
  lemma ReturnStep(s: Setup, net: Net, e: Event)
    requires GoodSetup(s) && NetInv(s, net) && ShapedNet(s, net) && Enabled(s, net, e) && e.Return?
    ensures NodeInv(s, NodeStep(s, net, e)) && NodeStep(s, net, e).phase.Returned?
    ensures NodeStep(s, net, e).voted == net[e.node].voted
  {
    hide TotalPower, Faithful, BlocksInv, VotesInv, MajorityInv, BoundedInv, MakeCommit, TimesRoundTrip, Shaped,
         Certificates.Certifies;
    var node, next := net[e.node], NodeStep(s, net, e);
    assert NodeInv(s, node);
    var cfg := Cfg(s, PRECOMMIT_TYPE);
    CfgIsGood(s, PRECOMMIT_TYPE);
    CommitValidity.CommitCertifies(cfg, node.precommits);
    CommitIsForMajority(cfg, node.precommits);
    SignedMore(s, node, next, []);
  }

  lemma CommitIsForMajority(cfg: Config, st: State)
    ensures MakeCommit(cfg, st).Some? ==> Some(MakeCommit(cfg, st).value.dataHash) == st.maj23
  {
  }

  lemma VoteStep(s: Setup, net: Net, e: Event)
    requires GoodSetup(s) && NetInv(s, net) && ShapedNet(s, net) && Enabled(s, net, e) && e.ReceiveVote?
    ensures NodeInv(s, NodeStep(s, net, e))
    ensures NodeStep(s, net, e).voted == net[e.node].voted
    ensures Faithful(s, net, NodeStep(s, net, e).prevotes) && Faithful(s, net, NodeStep(s, net, e).precommits)
  {
    hide TotalPower, AddVote, SetInv, Unforged, Holds, Shaped, ValidateBasic, TimesRoundTrip, Faithful,
         Certificates.Certifies;
    var node, next, v := net[e.node], NodeStep(s, net, e), e.vote;
    assert NodeInv(s, node);
    assert Faithful(s, net, node.prevotes) && Faithful(s, net, node.precommits);
    SignedMore(s, node, next, []);
    if v.msgType == PREVOTE_TYPE {
      SetInvAfterVote(s, PREVOTE_TYPE, node.prevotes, v);
      FaithfulAfterVote(s, net, PREVOTE_TYPE, node.prevotes, v);
    } else {
      SetInvAfterVote(s, PRECOMMIT_TYPE, node.precommits, v);
      FaithfulAfterVote(s, net, PRECOMMIT_TYPE, node.precommits, v);
    }
  }

  lemma StepInv(s: Setup, net: Net, e: Event)
    requires GoodSetup(s) && NetInv(s, net) && ShapedNet(s, net) && Enabled(s, net, e)
    ensures NetInv(s, NetStep(s, net, e))
    ensures forall i :: 0 <= i < |net| && net[i].voted.Some? ==> NetStep(s, net, e)[i].voted == net[i].voted
  {
    hide Enabled, NodeInv, Faithful, ShapedNet, GoodSetup;
    var node, next := NodeStep(s, net, e), NetStep(s, net, e);
    EventNode(s, net, e);
    StepOfNode(s, net, e);
    forall i | 0 <= i < |net| ensures Faithful(s, next, next[i].prevotes) && Faithful(s, next, next[i].precommits) {
      FaithfulKept(s, net, next, next[i].prevotes);
      FaithfulKept(s, net, next, next[i].precommits);
    }
  }

  lemma EventNode(s: Setup, net: Net, e: Event)
    requires ShapedNet(s, net) && Enabled(s, net, e)
    ensures e.node < |net| == |s.vals| == |s.honest|
  {
  }

  lemma StepOfNode(s: Setup, net: Net, e: Event)
    requires GoodSetup(s) && NetInv(s, net) && ShapedNet(s, net) && Enabled(s, net, e) && e.node < |net|
    ensures NodeInv(s, NodeStep(s, net, e))
    ensures net[e.node].voted.Some? ==> NodeStep(s, net, e).voted == net[e.node].voted
    ensures Faithful(s, net, NodeStep(s, net, e).prevotes) && Faithful(s, net, NodeStep(s, net, e).precommits)
  {
    hide Enabled, NodeInv, Faithful, ShapedNet, GoodSetup, NodeStep;
    if e.ReceiveVote? {
      VoteStep(s, net, e);
    } else {
      if e.Return? { ReturnStep(s, net, e); } else { PhaseStep(s, net, e); }
      SetsKept(s, net, e);
    }
  }

  lemma SetsKept(s: Setup, net: Net, e: Event)
    requires ShapedNet(s, net) && Enabled(s, net, e) && !e.ReceiveVote?
    ensures NodeStep(s, net, e).prevotes == net[e.node].prevotes
    ensures NodeStep(s, net, e).precommits == net[e.node].precommits
  {
    hide SignBytes, ProposalBytes, MakeCommit, AddVote;
  }

  /** Every reachable net satisfies the invariant. */
  lemma {:induction false} NetRunInv(s: Setup, events: seq<Event>)
    requires GoodSetup(s) && NetRun(s, events).Some?
    ensures NetInv(s, NetRun(s, events).value)
  {
    hide GoodSetup, NetInv, Enabled, NetStep, NewNet;
    if |events| == 0 {
      NewNetInv(s);
    } else {
      var front := events[..|events| - 1];
      NetRunInv(s, front);
      StepInv(s, NetRun(s, front).value, events[|events| - 1]);
    }
  }

  // ---- safety

  /** The validators whose votes make up the majority of a vote set hold more than two thirds. */
  lemma MajorityVoters(s: Setup, m: Int32, st: State) returns (pick: seq<bool>)
    requires GoodSetup(s) && SetInv(Cfg(s, m), st) && st.maj23.Some?
    ensures |pick| == |s.vals| && Weight(s.vals, pick) > TotalPower(s.vals) * 2 / 3
    ensures forall j :: 0 <= j < |pick| && pick[j] ==> exists w :: Holds(st, j, w) && w.dataHash == st.maj23.value
  {
    hide TotalPower, Weight, VotesInv, PeersInv, BoundedInv, VotedPower, BitsMatch, AllStored, TimesRoundTrip;
    var cfg, h := Cfg(s, m), st.maj23.value;
    var block := st.blocks[h];
    assert BlockInv(cfg, st.votes, h, block);
    VotedPowerIsWeight(cfg, block.votes);
    pick := Bits(block.votes);
    forall j | 0 <= j < |pick| && pick[j] ensures exists w :: Holds(st, j, w) && w.dataHash == st.maj23.value {
      assert InBlock(st, h, j, block.votes[j].value);
    }
  }

  /** An honest validator among the voters of a majority voted for its hash. */
  lemma HonestVoter(s: Setup, net: Net, i: nat, j: nat, pick: seq<bool>)
    requires NetInv(s, net) && i < |net| && j < |net| && s.honest[j] && net[i].precommits.maj23.Some?
    requires |pick| == |s.vals| && pick[j]
    requires forall k :: 0 <= k < |pick| && pick[k] ==>
               exists w :: Holds(net[i].precommits, k, w) && w.dataHash == net[i].precommits.maj23.value
    ensures net[j].voted == net[i].precommits.maj23
  {
    hide Holds, NodeInv;
    assert Faithful(s, net, net[i].precommits);
    var w :| Holds(net[i].precommits, j, w) && w.dataHash == net[i].precommits.maj23.value;
  }

  lemma PrecommitMajorities(s: Setup, net: Net, i: nat, j: nat)
    requires GoodSetup(s) && NetInv(s, net) && i < |net| && j < |net|
    requires 3 * Weight(s.vals, Faulty(s)) <= TotalPower(s.vals)
    requires net[i].precommits.maj23.Some? && net[j].precommits.maj23.Some?
    ensures net[i].precommits.maj23 == net[j].precommits.maj23
  {
    hide TotalPower, Weight, Holds, Faithful, SignedInv, PhaseInv, Inv, TimesRoundTrip;
    assert NodeInv(s, net[i]) && NodeInv(s, net[j]);
    var a := MajorityVoters(s, PRECOMMIT_TYPE, net[i].precommits);
    var b := MajorityVoters(s, PRECOMMIT_TYPE, net[j].precommits);
    QuorumOverlap(s.vals, a, b);
    var k := SomeoneElse(s.vals, Both(a, b), Faulty(s));
    HonestVoter(s, net, i, k, a);
    HonestVoter(s, net, j, k, b);
  }

  /**
   * Agreement: in every run in which validators outside the honest set hold at most a third of the power, any two
   * honest nodes that return have commits with the same data hash.
   */
  lemma AgreementHolds(s: Setup, events: seq<Event>, i: nat, j: nat)
    requires GoodSetup(s) && NetRun(s, events).Some?
    requires 3 * Weight(s.vals, Faulty(s)) <= TotalPower(s.vals)
    requires i < |s.vals| && j < |s.vals|
    requires NetRun(s, events).value[i].phase.Returned? && NetRun(s, events).value[j].phase.Returned?
    ensures NetRun(s, events).value[i].phase.commit.dataHash == NetRun(s, events).value[j].phase.commit.dataHash
  {
    hide GoodSetup, SignedInv, SetInv, Faithful, NetRun;
    NetRunInv(s, events);
    var net := NetRun(s, events).value;
    assert NodeInv(s, net[i]) && NodeInv(s, net[j]);
    PrecommitMajorities(s, net, i, j);
  }

  /** Validity: the hash of a returned commit is one that an honest node validated and voted for. */
  lemma CommitWasValidated(s: Setup, events: seq<Event>, i: nat) returns (k: nat)
    requires GoodSetup(s) && NetRun(s, events).Some?
    requires 3 * Weight(s.vals, Faulty(s)) <= TotalPower(s.vals)
    requires i < |s.vals| && NetRun(s, events).value[i].phase.Returned?
    ensures k < |s.vals| && s.honest[k]
    ensures exists t :: Prevote(k, NetRun(s, events).value[i].phase.commit.dataHash, t) in events
  {
    hide SignedInv, Holds, Faithful, NetRun, Weight, TotalPower, Inv, TimesRoundTrip;
    NetRunInv(s, events);
    var net := NetRun(s, events).value;
    assert NodeInv(s, net[i]);
    var pick := MajorityVoters(s, PRECOMMIT_TYPE, net[i].precommits);
    Certificates.TotalIsNat(s.vals);
    k := SomeoneElse(s.vals, pick, Faulty(s));
    HonestVoter(s, net, i, k, pick);
    VotedByEvent(s, events, k);
  }

  /** A hash is voted for by a prevote step only. */
  lemma {:induction false} VotedByEvent(s: Setup, events: seq<Event>, k: nat)
    requires GoodSetup(s) && NetRun(s, events).Some? && k < |s.vals| && NetRun(s, events).value[k].voted.Some?
    ensures exists t :: Prevote(k, NetRun(s, events).value[k].voted.value, t) in events
  {
    hide GoodSetup, Enabled, NewState, AddVote, MakeCommit, SignBytes, ProposalBytes;
    if |events| > 0 {
      var n := |events| - 1;
      var e := events[n];
      var before, after := NetRun(s, events[..n]).value, NetRun(s, events).value;
      if e.Prevote? && e.node == k {
        assert Prevote(k, after[k].voted.value, e.t) == events[n];
      } else {
        assert before[k].voted == after[k].voted;
        VotedByEvent(s, events[..n], k);
        var t :| Prevote(k, before[k].voted.value, t) in events[..n];
        assert Prevote(k, after[k].voted.value, t) in events;
      }
    }
  }

  /** A returned commit passes VerifyCommit for its hash, unless the nodes agreed on nil. */
  lemma ReturnedCommitCertifies(s: Setup, events: seq<Event>, i: nat)
    requires GoodSetup(s) && NetRun(s, events).Some? && i < |s.vals| && NetRun(s, events).value[i].phase.Returned?
    ensures var c := NetRun(s, events).value[i].phase.commit;
      Certificates.Certifies(s.crypto, s.chainID, s.vals, c.dataHash, c) <==> IsComplete(c.dataHash)
  {
    hide GoodSetup, SignedInv, SetInv, Faithful, NetRun, Certificates.Certifies;
    NetRunInv(s, events);
    assert NodeInv(s, NetRun(s, events).value[i]);
  }

  /** The honest nodes voted alike, and the vote set has a vote of each. */
  ghost predicate HonestSlots(s: Setup, net: Net, st: State, h: Hash)
    requires |net| == |s.honest|
  {
    forall j :: 0 <= j < |net| && s.honest[j] ==> net[j].voted == Some(h) && j < |st.votes| && st.votes[j].Some?
  }

  /** A vote set of either type that has a vote of every honest node has their majority, and has given the signal. */
  lemma HonestSlotsDecide(s: Setup, net: Net, m: Int32, st: State, h: Hash)
    requires GoodSetup(s) && |net| == |s.vals| && SetInv(Cfg(s, m), st) && Faithful(s, net, st)
    requires 3 * Weight(s.vals, Faulty(s)) < TotalPower(s.vals) && HonestSlots(s, net, st, h)
    ensures st.maj23 == Some(h) && st.done
  {
    hide TotalPower, Weight, BoundedInv, TimesRoundTrip, VotedPower, BitsMatch, AllStored, Holds;
    HonestWeight(s);
    if st.maj23 != Some(h) {
      HonestBlock(s, net, m, st, h);
    }
    var pick := MajorityVoters(s, m, st);
    Certificates.TotalIsNat(s.vals);
    var k := SomeoneElse(s.vals, pick, Faulty(s));
    var w :| Holds(st, k, w) && w.dataHash == st.maj23.value;
  }

  /**
   * Termination of the wait: once a node holds the precommits of all honest nodes and they voted alike, its signal is
   * given for their hash, provided the others hold less than a third.
   */
  lemma HonestVotesSuffice(s: Setup, net: Net, i: nat, h: Hash)
    requires GoodSetup(s) && NetInv(s, net) && i < |net|
    requires 3 * Weight(s.vals, Faulty(s)) < TotalPower(s.vals) && HonestSlots(s, net, net[i].precommits, h)
    ensures net[i].precommits.maj23 == Some(h) && net[i].precommits.done
  {
    hide TotalPower, Weight, SignedInv, PhaseInv, SetInv, Faithful, HonestSlots;
    assert NodeInv(s, net[i]);
    HonestSlotsDecide(s, net, PRECOMMIT_TYPE, net[i].precommits, h);
  }

  lemma HonestWeight(s: Setup)
    requires GoodSetup(s) && 3 * Weight(s.vals, Faulty(s)) < TotalPower(s.vals)
    ensures Weight(s.vals, s.honest) > TotalPower(s.vals) * 2 / 3
  {
    SumLinear(Weights(s.vals, s.honest), Weights(s.vals, Faulty(s)), 0, Powers(s.vals));
  }

  /** As long as it is not the majority, the block of the honest votes holds all of them. */
  lemma HonestBlock(s: Setup, net: Net, m: Int32, st: State, h: Hash)
    requires GoodSetup(s) && |net| == |s.vals| && SetInv(Cfg(s, m), st) && Faithful(s, net, st) && st.maj23 != Some(h)
    requires Weight(s.vals, s.honest) > TotalPower(s.vals) * 2 / 3 && HonestSlots(s, net, st, h)
    ensures HasQuorum(Cfg(s, m), st, h)
  {
    hide TotalPower, Weight, BoundedInv, TimesRoundTrip, VotedPower, BitsMatch, AllStored, PeersInv;
    var cfg := Cfg(s, m);
    Certificates.TotalIsNat(s.vals);
    var nobody := seq(|s.vals|, x => false);
    WeightOfNobody(s.vals, nobody);
    var someone := SomeoneElse(s.vals, s.honest, nobody);
    forall j | 0 <= j < |net| && s.honest[j]
      ensures h in st.blocks && st.blocks[h].votes[j].Some?
    {
      assert Holds(st, j, st.votes[j].value);
    }
    assert BlockInv(cfg, st.votes, h, st.blocks[h]);
    VotedPowerIsWeight(cfg, st.blocks[h].votes);
    WeightMonotone(s.vals, s.honest, Bits(st.blocks[h].votes));
  }
}
