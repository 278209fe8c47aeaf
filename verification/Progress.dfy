/**
 * No reachable net is stuck: as long as the honest nodes can still agree, some continuation lets all of them return.
 */
module Progress {
  import opened Bytes
  import opened Options
  import opened Proposers
  import opened Quorums
  import opened Varints
  import opened Canonical
  import opened Votes
  import opened Proposals
  import opened VoteSets
  import opened VoteSetInvariant
  import opened VoteOrigins
  import opened Tallies
  import Commits
  import Certificates
  import opened Signals
  import opened Agreement
  import opened AgreementRuns

  // ---- what a node has signed so far

  /** The node has signed a vote of the type for the hash, at some time. */
  ghost predicate SignedFor(s: Setup, node: Node, m: Int32, h: Hash) {
    exists t :: SignedAt(s, node, m, h, t)
  }

  ghost predicate SignedAt(s: Setup, node: Node, m: Int32, h: Hash, t: Time) {
    && SignBytes(s.crypto.times, s.chainID, m, h, t).Some?
    && SignBytes(s.crypto.times, s.chainID, m, h, t).value in node.signed
  }

  /** A node that has voted has signed a prevote, and one past the prevotes a precommit. */
  ghost predicate KeepsWord(s: Setup, node: Node) {
    && (node.voted.Some? ==> SignedFor(s, node, PREVOTE_TYPE, node.voted.value))
    && (node.phase.Precommitting? || node.phase.Returned? ==> SignedFor(s, node, PRECOMMIT_TYPE, node.phase.hash))
  }

  lemma SignedMoreFor(s: Setup, node: Node, next: Node, m: Int32, h: Hash)
    requires SignedFor(s, node, m, h) && node.signed <= next.signed
    ensures SignedFor(s, next, m, h)
  {
    hide SignBytes;
    var t :| SignedAt(s, node, m, h, t);
    assert SignedAt(s, next, m, h, t);
  }

  lemma WordKept(s: Setup, node: Node, e: Event)
    requires e.node < |s.vals| && s.proposer < |s.vals| && ShapedNode(s, node) && Ready(s, node, e)
    requires PhaseInv(s, node) && KeepsWord(s, node)
    ensures KeepsWord(s, NodeAfter(s, node, e))
  {
    hide SignBytes, ProposalBytes, AddVote, SignedFor, CommitInv, ShapedNode, SelfIndex;
    var next := NodeAfter(s, node, e);
    if node.voted.Some? { SignedMoreFor(s, node, next, PREVOTE_TYPE, node.voted.value); }
    if node.phase.Precommitting? || node.phase.Returned? {
      SignedMoreFor(s, node, next, PRECOMMIT_TYPE, node.phase.hash);
    }
    match e {
      case Prevote(_, h, t) => JustSigned(s, next, PREVOTE_TYPE, h, t);
      case Precommit(_, t) => JustSigned(s, next, PRECOMMIT_TYPE, node.phase.hash, t);
      case _ =>
    }
  }

  lemma JustSigned(s: Setup, node: Node, m: Int32, h: Hash, t: Time)
    requires SignBytes(s.crypto.times, s.chainID, m, h, t).Some?
    requires SignBytes(s.crypto.times, s.chainID, m, h, t).value in node.signed
    ensures SignedFor(s, node, m, h)
  {
    hide SignBytes;
    assert SignedAt(s, node, m, h, t);
  }

  lemma {:induction false} RunKeepsWord(s: Setup, events: seq<Event>, i: nat)
    requires GoodSetup(s) && NetRun(s, events).Some? && i < |s.vals|
    ensures KeepsWord(s, NetRun(s, events).value[i])
  {
    hide GoodSetup, Ready, NodeAfter, NewState, KeepsWord, SignedInv, SetInv, Faithful, CommitInv, ShapedNode;
    if |events| == 0 {
      NewKeepsWord(s);
    } else {
      var n := |events| - 1;
      RunKeepsWord(s, events[..n], i);
      if events[n].node == i {
        NetRunInv(s, events[..n]);
        var net := NetRun(s, events[..n]).value;
        assert NodeInv(s, net[i]);
        WordKept(s, net[i], events[n]);
      }
    }
  }

  lemma NewKeepsWord(s: Setup)
    ensures KeepsWord(s, NewNode(s))
  {
  }

  // ---- one more event

  /** The net after the run, and the run goes on from the earlier one. */
  ghost predicate Reaches(s: Setup, events: seq<Event>, more: seq<Event>, next: Net)
    requires GoodSetup(s)
  {
    events <= more && NetRun(s, more) == Some(next)
  }

  lemma Steps(s: Setup, start: seq<Event>, events: seq<Event>, net: Net, e: Event) returns (more: seq<Event>, next: Net)
    requires GoodSetup(s) && Reaches(s, start, events, net) && ShapedNet(s, net) && Enabled(s, net, e)
    ensures Reaches(s, start, more, next) && ShapedNet(s, next)
    ensures e.node < |net| && next == net[e.node := NodeAfter(s, net[e.node], e)]
  {
    hide GoodSetup, NodeAfter, Ready;
    Extend(s, events, net, e);
    more, next := events + [e], NetStep(s, net, e);
  }

  lemma RunFacts(s: Setup, events: seq<Event>, net: Net)
    requires GoodSetup(s) && NetRun(s, events) == Some(net)
    ensures NetInv(s, net) && ShapedNet(s, net) && |net| == |s.vals| == |s.honest| <= 0x7FFF_FFFF
    ensures s.proposer < |s.vals|
    ensures forall i :: 0 <= i < |net| ==> KeepsWord(s, net[i])
  {
    hide GoodSetup, NetInv, KeepsWord, ShapedNode;
    NetRunInv(s, events);
    SetupFits(s);
    forall i | 0 <= i < |net| ensures KeepsWord(s, net[i]) { RunKeepsWord(s, events, i); }
  }

  // ---- what can still agree

  /** No honest node has failed, and every honest vote so far is for the hash. */
  ghost predicate Unanimous(s: Setup, net: Net, h: Hash) {
    |net| == |s.honest| && forall j :: 0 <= j < |net| && s.honest[j] ==> Willing(net[j], h)
  }

  ghost predicate Willing(node: Node, h: Hash) {
    node.phase != Failed && (node.voted == None || node.voted == Some(h))
  }

  /** What a continuation needs of the setup. */
  ghost predicate Able(s: Setup, sign: Signer, data: ByteString, h: Hash, t: Time) {
    && GoodSetup(s) && Keyed(s, sign) && Signable(s, h, t)
    && ProposalBytes(s.crypto.times, s.chainID, data, t).Some?
    && 3 * Weight(s.vals, Faulty(s)) < TotalPower(s.vals)
  }

  // ---- the first stage: every honest node has prevoted

  ghost predicate Prevoted(node: Node, h: Hash) {
    node.voted == Some(h) && (node.phase.Prevoting? || node.phase.Precommitting? || node.phase.Returned?)
  }

  lemma StartsUp(s: Setup, sign: Signer, data: ByteString, h: Hash, t: Time,
                 start: seq<Event>, events: seq<Event>, net: Net, i: nat) returns (more: seq<Event>, next: Net)
    requires Able(s, sign, data, h, t) && Reaches(s, start, events, net) && ShapedNet(s, net)
    requires i < |net| == |s.vals| && s.honest[i] && net[i].phase == Idle
    ensures Reaches(s, start, more, next) && ShapedNet(s, next)
    ensures next == net[i := next[i]] && next[i].phase == Proposing && next[i].voted == net[i].voted
  {
    hide SignBytes, ProposalBytes, AddVote, GoodSetup, SelfIndex, Signable, Keyed, Weight, TotalPower, ShapedNode,
         Reaches;
    SetupFits(s);
    OwnIndex(s, sign, i);
    more, next := Steps(s, start, events, net, Start(i, data, t));
  }

  lemma GetsProposal(s: Setup, sign: Signer, data: ByteString, h: Hash, t: Time,
                     start: seq<Event>, events: seq<Event>, net: Net, i: nat) returns (more: seq<Event>, next: Net)
    requires Able(s, sign, data, h, t) && Reaches(s, start, events, net) && ShapedNet(s, net)
    requires i < |net| == |s.vals| && s.honest[i] && net[i].phase == Proposing
    ensures Reaches(s, start, more, next) && ShapedNet(s, next)
    ensures next == net[i := next[i]] && next[i].phase == Proposing && next[i].voted == net[i].voted
    ensures next[i].inbox.Some?
  {
    hide SignBytes, ProposalBytes, AddVote, GoodSetup, SelfIndex, Signable, Weight, TotalPower, ShapedNode, Reaches;
    SetupFits(s);
    if net[i].inbox.Some? {
      more, next := events, net;
    } else {
      assert KeyedAt(s, sign, s.proposer);
      var bytes := ProposalBytes(s.crypto.times, s.chainID, data, t).value;
      more, next := Steps(s, start, events, net, ReceiveProposal(i, data, t, sign(s.proposer, bytes)));
    }
  }

  lemma ComesToPrevote(s: Setup, sign: Signer, data: ByteString, h: Hash, t: Time,
                       start: seq<Event>, events: seq<Event>, net: Net, i: nat) returns (more: seq<Event>, next: Net)
    requires Able(s, sign, data, h, t) && Reaches(s, start, events, net) && ShapedNet(s, net)
    requires i < |net| == |s.vals| && s.honest[i] && (net[i].phase == Idle || net[i].phase == Proposing)
    ensures Reaches(s, start, more, next) && ShapedNet(s, next)
    ensures next == net[i := next[i]] && Prevoted(next[i], h)
  {
    hide SignBytes, ProposalBytes, AddVote, GoodSetup, SelfIndex, Keyed, Weight, TotalPower, ShapedNode, Reaches;
    SetupFits(s);
    var first, mid := events, net;
    if net[i].phase == Idle {
      first, mid := StartsUp(s, sign, data, h, t, start, events, net, i);
    }
    first, mid := GetsProposal(s, sign, data, h, t, start, first, mid, i);
    more, next := Steps(s, start, first, mid, Prevote(i, h, t));
  }

  /** A node that has not failed and has not voted otherwise has prevoted or is about to. */
  lemma WillingPhase(s: Setup, node: Node, h: Hash)
    requires PhaseInv(s, node) && Willing(node, h)
    ensures Prevoted(node, h) || node.phase == Idle || node.phase == Proposing
  {
  }

  lemma Begins(s: Setup, start: seq<Event>, net: Net)
    requires GoodSetup(s) && NetRun(s, start) == Some(net)
    ensures Reaches(s, start, start, net)
  {
  }

  /** One node is brought to its prevote, if it is not there already. */
  lemma HasPrevoted(s: Setup, sign: Signer, data: ByteString, h: Hash, t: Time,
                    start: seq<Event>, events: seq<Event>, net: Net, i: nat) returns (more: seq<Event>, next: Net)
    requires Able(s, sign, data, h, t) && Reaches(s, start, events, net) && ShapedNet(s, net)
    requires i < |net| == |s.vals| && s.honest[i] && PhaseInv(s, net[i]) && Willing(net[i], h)
    ensures Reaches(s, start, more, next) && ShapedNet(s, next)
    ensures next == net[i := next[i]] && Prevoted(next[i], h)
  {
    hide Able, ShapedNet, Willing, Prevoted, PhaseInv, Reaches;
    WillingPhase(s, net[i], h);
    if net[i].phase == Idle || net[i].phase == Proposing {
      more, next := ComesToPrevote(s, sign, data, h, t, start, events, net, i);
    } else {
      more, next := events, net;
    }
  }

  lemma {:induction false} AllHavePrevoted(s: Setup, sign: Signer, data: ByteString, h: Hash, t: Time,
                                           start: seq<Event>, net: Net, k: nat)
    returns (more: seq<Event>, next: Net)
    requires Able(s, sign, data, h, t) && NetRun(s, start) == Some(net) && Unanimous(s, net, h) && k <= |s.vals|
    ensures GoodSetup(s) && Reaches(s, start, more, next) && ShapedNet(s, next)
    ensures |next| == |net| == |s.vals| == |s.honest|
    ensures forall i :: 0 <= i < k && s.honest[i] ==> Prevoted(next[i], h)
    ensures forall i :: k <= i < |s.vals| ==> next[i] == net[i]
  {
    hide Able, ShapedNet, Willing, Prevoted, NetRun, NetInv, Reaches, GoodSetup, PhaseInv;
    AbleIsGood(s, sign, data, h, t);
    RunFacts(s, start, net);
    if k == 0 {
      Begins(s, start, net);
      more, next := start, net;
    } else {
      more, next := AllHavePrevoted(s, sign, data, h, t, start, net, k - 1);
      if s.honest[k - 1] {
        NodeFacts(s, net, k - 1);
        more, next := HasPrevoted(s, sign, data, h, t, start, more, next, k - 1);
      }
    }
  }

  lemma NodeFacts(s: Setup, net: Net, i: nat)
    requires NetInv(s, net) && i < |net|
    ensures NodeInv(s, net[i]) && PhaseInv(s, net[i])
    ensures |net| == |s.vals| == |s.honest| && Faithful(s, net, net[i].prevotes) && Faithful(s, net, net[i].precommits)
    ensures SetInv(Cfg(s, PREVOTE_TYPE), net[i].prevotes) && SetInv(Cfg(s, PRECOMMIT_TYPE), net[i].precommits)
  {
    hide SignedInv, PhaseInv, SetInv, Faithful;
    assert NodeInv(s, net[i]);
  }

  lemma AbleIsGood(s: Setup, sign: Signer, data: ByteString, h: Hash, t: Time)
    requires Able(s, sign, data, h, t)
    ensures GoodSetup(s) && |s.honest| == |s.vals| <= 0x7FFF_FFFF && s.proposer < |s.vals|
  {
  }

  // ---- a node gathers the honest votes of one type

  /** Every honest node voted for the hash and has signed its vote of the type. */
  ghost predicate AllFor(s: Setup, net: Net, m: Int32, h: Hash) {
    && |net| == |s.honest| == |s.vals|
    && forall j :: 0 <= j < |net| && s.honest[j] ==> net[j].voted == Some(h) && SignedFor(s, net[j], m, h)
  }

  /** The vote set has a vote of every honest node below k. */
  ghost predicate FilledTo(s: Setup, st: State, k: nat)
    requires k <= |s.honest|
  {
    |st.votes| == |s.honest| && forall j :: 0 <= j < k && s.honest[j] ==> st.votes[j].Some?
  }

  /** AddVote empties no slot, and it fills the slot of a first valid vote. */
  lemma AddFills(cfg: Config, st: State, v: Vote)
    requires Inv(cfg, st)
    ensures Shaped(cfg, AddVote(cfg, st, Some(v)).0)
    ensures forall j :: 0 <= j < |st.votes| && st.votes[j].Some? ==> AddVote(cfg, st, Some(v)).0.votes[j].Some?
    ensures Good(cfg, v) ==> AddVote(cfg, st, Some(v)).0.votes[v.index].Some?
  {
    hide AddVerified, Refusal, Good, Tracks, BlocksInv, VotesInv, MajorityInv, PeersInv, BoundedInv, Fills, Accepts;
    AddVoteShaped(cfg, st, Some(v));
    RefusalExactly(cfg, st, Some(v));
    if Refusal(cfg, st, Some(v)) == None { VerifiedFills(cfg, st, v, v.index); }
    if Good(cfg, v) { GoodFills(cfg, st, v); }
  }

  lemma GoodFills(cfg: Config, st: State, v: Vote)
    requires Inv(cfg, st) && Good(cfg, v)
    ensures 0 <= v.index < |st.votes| && (st.votes[v.index] == None ==> Accepts(cfg, st, Some(v)))
  {
    hide Stored, VotesInv, MajorityInv, PeersInv, BoundedInv, BlocksInv, Known;
    if st.votes[v.index] == None { FirstIsAccepted(cfg, st, Some(v)); }
  }

  lemma VerifiedFills(cfg: Config, st: State, v: Vote, i: nat)
    requires Shaped(cfg, st) && i < |cfg.vals|
    ensures var next := AddVerified(cfg, st, v, i);
      |next.votes| == |st.votes| && next.votes[i].Some?
      && forall j :: 0 <= j < |st.votes| && st.votes[j].Some? ==> next.votes[j].Some?
  {
    hide Quorum, BlockAdd;
  }

  /** The vote of an honest node that it has signed, at the time it has signed it. */
  lemma OwnVote(s: Setup, sign: Signer, net: Net, m: Int32, h: Hash, j: nat) returns (v: Vote)
    requires GoodSetup(s) && Keyed(s, sign) && IsVoteType(m) && AllFor(s, net, m, h) && j < |net| && s.honest[j]
    ensures v.index == j && v.msgType == m && Good(Cfg(s, m), v) && ValidateBasic(v) && Unforged(s, net, v)
  {
    hide SignBytes, TotalPower, TimesRoundTrip;
    SetupFits(s);
    var t :| SignedAt(s, net[j], m, h, t);
    v := VoteOf(s, sign, j, m, h, t);
    VotePasses(s, sign, j, m, h, t);
    assert KeyedAt(s, sign, j);
  }

  /** One honest vote reaches the node. */
  lemma Gathers(s: Setup, sign: Signer, m: Int32, h: Hash, start: seq<Event>, events: seq<Event>, net: Net, i: nat,
                j: nat)
    returns (more: seq<Event>, next: Net)
    requires GoodSetup(s) && Keyed(s, sign) && IsVoteType(m) && AllFor(s, net, m, h) && Reaches(s, start, events, net)
    requires ShapedNet(s, net) && i < |net| && s.honest[i] && net[i].phase != Idle && j < |net| && s.honest[j]
    requires FilledTo(s, SetOf(net[i], m), j)
    ensures Reaches(s, start, more, next) && ShapedNet(s, next)
    ensures next == net[i := WithSet(net[i], m, SetOf(next[i], m))] && FilledTo(s, SetOf(next[i], m), j + 1)
  {
    hide SignBytes, ProposalBytes, AddVote, GoodSetup, Keyed, ValidateBasic, Unforged, Good, ShapedNode, NetInv,
         Reaches,
         AllFor, KeepsWord, Inv;
    var v := OwnVote(s, sign, net, m, h, j);
    ReachedFacts(s, start, events, net);
    NodeFacts(s, net, i);
    SetInvInv(Cfg(s, m), SetOf(net[i], m));
    AddFills(Cfg(s, m), SetOf(net[i], m), v);
    more, next := Steps(s, start, events, net, ReceiveVote(i, v));
  }

  lemma SetInvInv(cfg: Config, st: State)
    requires SetInv(cfg, st)
    ensures Inv(cfg, st) && |st.votes| == |cfg.vals|
  {
  }

  lemma ReachedFacts(s: Setup, start: seq<Event>, events: seq<Event>, net: Net)
    requires GoodSetup(s) && Reaches(s, start, events, net)
    ensures NetInv(s, net) && ShapedNet(s, net) && |net| == |s.vals| == |s.honest| <= 0x7FFF_FFFF
    ensures s.proposer < |s.vals|
    ensures forall i :: 0 <= i < |net| ==> KeepsWord(s, net[i])
  {
    hide GoodSetup, NetInv, KeepsWord, ShapedNet;
    RunFacts(s, events, net);
  }

  lemma AllForStays(s: Setup, net: Net, next: Net, i: nat, m: Int32, h: Hash)
    requires AllFor(s, net, m, h) && i < |net| == |next| && next == net[i := next[i]]
    requires net[i].signed <= next[i].signed && next[i].voted == net[i].voted
    ensures AllFor(s, next, m, h)
  {
    hide SignedFor;
    forall j | 0 <= j < |next| && s.honest[j] ensures next[j].voted == Some(h) && SignedFor(s, next[j], m, h) {
      if j == i { SignedMoreFor(s, net[j], next[j], m, h); }
    }
  }

  /** The votes of all honest nodes below k reach the node. */
  lemma {:induction false} GathersTo(s: Setup, sign: Signer, m: Int32, h: Hash,
                                     start: seq<Event>, events: seq<Event>, net: Net, i: nat, k: nat)
    returns (more: seq<Event>, next: Net)
    requires GoodSetup(s) && Keyed(s, sign) && IsVoteType(m) && AllFor(s, net, m, h) && Reaches(s, start, events, net)
    requires ShapedNet(s, net) && i < |net| && s.honest[i] && net[i].phase != Idle && k <= |s.honest| == |net|
    ensures Reaches(s, start, more, next) && ShapedNet(s, next)
    ensures i < |next| && next == net[i := WithSet(net[i], m, SetOf(next[i], m))] && FilledTo(s, SetOf(next[i], m), k)
  {
    hide GoodSetup, Keyed, AllFor, Reaches, ShapedNet, NetInv, SetInv, Faithful;
    if k == 0 {
      more, next := events, net;
      ReachedFacts(s, start, events, net);
      NodeFacts(s, net, i);
      SetInvInv(Cfg(s, m), SetOf(net[i], m));
    } else {
      more, next := GathersTo(s, sign, m, h, start, events, net, i, k - 1);
      if s.honest[k - 1] {
        AllForStays(s, net, next, i, m, h);
        more, next := Gathers(s, sign, m, h, start, more, next, i, k - 1);
      }
    }
  }

  /** A node that has gathered all honest votes has the majority and the signal. */
  lemma GathersAll(s: Setup, sign: Signer, m: Int32, h: Hash, start: seq<Event>, events: seq<Event>, net: Net, i: nat)
    returns (more: seq<Event>, next: Net)
    requires GoodSetup(s) && Keyed(s, sign) && IsVoteType(m) && AllFor(s, net, m, h) && Reaches(s, start, events, net)
    requires 3 * Weight(s.vals, Faulty(s)) < TotalPower(s.vals)
    requires ShapedNet(s, net) && i < |net| && s.honest[i] && net[i].phase != Idle
    ensures Reaches(s, start, more, next) && ShapedNet(s, next)
    ensures i < |next| && next == net[i := WithSet(net[i], m, SetOf(next[i], m))]
    ensures SetOf(next[i], m).maj23 == Some(h) && SetOf(next[i], m).done
  {
    hide GoodSetup, Keyed, Reaches, ShapedNet, NetInv, SetInv, Faithful, Weight, TotalPower, SignedFor;
    more, next := GathersTo(s, sign, m, h, start, events, net, i, |net|);
    AllForStays(s, net, next, i, m, h);
    ReachedFacts(s, start, more, next);
    NodeFacts(s, next, i);
    assert HonestSlots(s, next, SetOf(next[i], m), h);
    HonestSlotsDecide(s, next, m, SetOf(next[i], m), h);
  }

  // ---- the second stage: every honest node has precommitted

  ghost predicate Precommitted(node: Node, h: Hash) {
    node.voted == Some(h) && (node.phase.Precommitting? || node.phase.Returned?)
  }

  /** A node with the majority of the prevotes precommits. */
  lemma PrecommitsNow(s: Setup, sign: Signer, data: ByteString, h: Hash, t: Time,
                      start: seq<Event>, events: seq<Event>, net: Net, i: nat) returns (more: seq<Event>, next: Net)
    requires Able(s, sign, data, h, t) && Reaches(s, start, events, net) && ShapedNet(s, net)
    requires i < |net| == |s.vals| && s.honest[i] && net[i].phase.Prevoting? && net[i].phase.hash == h
    requires net[i].prevotes.done
    ensures Reaches(s, start, more, next) && ShapedNet(s, next)
    ensures next == net[i := next[i]] && next[i].phase.Precommitting? && next[i].voted == net[i].voted
    ensures net[i].signed <= next[i].signed
  {
    hide SignBytes, ProposalBytes, AddVote, GoodSetup, SelfIndex, Keyed, Weight, TotalPower, ShapedNode, Reaches;
    SetupFits(s);
    more, next := Steps(s, start, events, net, Precommit(i, t));
  }

  lemma HasPrecommitted(s: Setup, sign: Signer, data: ByteString, h: Hash, t: Time,
                        start: seq<Event>, events: seq<Event>, net: Net, i: nat) returns (more: seq<Event>, next: Net)
    requires Able(s, sign, data, h, t) && Reaches(s, start, events, net) && ShapedNet(s, net)
    requires AllFor(s, net, PREVOTE_TYPE, h) && i < |net| && s.honest[i] && Prevoted(net[i], h)
    ensures Reaches(s, start, more, next) && ShapedNet(s, next)
    ensures next == net[i := next[i]] && Precommitted(next[i], h) && AllFor(s, next, PREVOTE_TYPE, h)
  {
    hide GoodSetup, Keyed, Signable, Reaches, ShapedNet, Weight, TotalPower, NetInv, AllFor, ProposalBytes, SetInv,
         Faithful,
         KeepsWord, CommitInv, SignedInv;
    SetupFits(s);
    ReachedFacts(s, start, events, net);
    NodeFacts(s, net, i);
    if net[i].phase.Prevoting? {
      var front, mid := GathersAll(s, sign, PREVOTE_TYPE, h, start, events, net, i);
      more, next := PrecommitsNow(s, sign, data, h, t, start, front, mid, i);
      AllForStays(s, net, next, i, PREVOTE_TYPE, h);
    } else {
      more, next := events, net;
    }
  }

  lemma {:induction false} AllHavePrecommitted(s: Setup, sign: Signer, data: ByteString, h: Hash, t: Time,
                                               start: seq<Event>, events: seq<Event>, net: Net, k: nat)
    returns (more: seq<Event>, next: Net)
    requires Able(s, sign, data, h, t) && Reaches(s, start, events, net) && ShapedNet(s, net)
    requires AllFor(s, net, PREVOTE_TYPE, h) && k <= |net| == |s.honest|
    requires forall i :: 0 <= i < |net| && s.honest[i] ==> Prevoted(net[i], h)
    ensures Reaches(s, start, more, next) && ShapedNet(s, next) && AllFor(s, next, PREVOTE_TYPE, h) && |next| == |net|
    ensures forall i :: 0 <= i < k && s.honest[i] ==> Precommitted(next[i], h)
    ensures forall i :: k <= i < |net| ==> next[i] == net[i]
  {
    hide Able, ShapedNet, Prevoted, Precommitted, AllFor, Reaches;
    AbleIsGood(s, sign, data, h, t);
    if k == 0 {
      more, next := events, net;
    } else {
      more, next := AllHavePrecommitted(s, sign, data, h, t, start, events, net, k - 1);
      if s.honest[k - 1] {
        more, next := HasPrecommitted(s, sign, data, h, t, start, more, next, k - 1);
      }
    }
  }

  // ---- the third stage: every honest node has returned

  ghost predicate HasCommit(node: Node, h: Hash) {
    node.voted == Some(h) && node.phase.Returned? && node.phase.commit.dataHash == h
  }

  lemma ReturnsNow(s: Setup, start: seq<Event>, events: seq<Event>, net: Net, i: nat)
    returns (more: seq<Event>, next: Net)
    requires GoodSetup(s) && Reaches(s, start, events, net) && ShapedNet(s, net)
    requires i < |net| == |s.vals| == |s.honest| && s.honest[i] && net[i].phase.Precommitting? && net[i].precommits.done
    ensures Reaches(s, start, more, next) && ShapedNet(s, next)
    ensures next == net[i := next[i]] && next[i].phase.Returned? && next[i].voted == net[i].voted
    ensures net[i].signed <= next[i].signed
  {
    hide SignBytes, ProposalBytes, AddVote, GoodSetup, ShapedNode, Reaches, Commits.MakeCommit, NetInv, NodeInv;
    ReachedFacts(s, start, events, net);
    ReturnStep(s, net, Return(i));
    more, next := Steps(s, start, events, net, Return(i));
  }

  /** What a node has returned is what all honest nodes voted for. */
  lemma ReturnedIsVoted(s: Setup, net: Net, i: nat, h: Hash)
    requires GoodSetup(s) && NetInv(s, net) && i < |net| && net[i].phase.Returned?
    requires 3 * Weight(s.vals, Faulty(s)) < TotalPower(s.vals)
    requires forall j :: 0 <= j < |net| && s.honest[j] ==> net[j].voted == Some(h)
    ensures net[i].phase.commit.dataHash == h
  {
    hide TotalPower, Weight, Faithful, SignedInv, SetInv, TimesRoundTrip, Holds;
    assert NodeInv(s, net[i]);
    var pick := MajorityVoters(s, PRECOMMIT_TYPE, net[i].precommits);
    Certificates.TotalIsNat(s.vals);
    var k := SomeoneElse(s.vals, pick, Faulty(s));
    HonestVoter(s, net, i, k, pick);
  }

  lemma HasReturned(s: Setup, sign: Signer, data: ByteString, h: Hash, t: Time,
                    start: seq<Event>, events: seq<Event>, net: Net, i: nat) returns (more: seq<Event>, next: Net)
    requires Able(s, sign, data, h, t) && Reaches(s, start, events, net) && ShapedNet(s, net)
    requires AllFor(s, net, PRECOMMIT_TYPE, h) && i < |net| && s.honest[i] && Precommitted(net[i], h)
    ensures Reaches(s, start, more, next) && ShapedNet(s, next)
    ensures next == net[i := next[i]] && HasCommit(next[i], h) && AllFor(s, next, PRECOMMIT_TYPE, h)
  {
    hide GoodSetup, Keyed, Signable, Reaches, ShapedNet, Weight, TotalPower, NetInv, ProposalBytes, SignedFor;
    SetupFits(s);
    if net[i].phase.Precommitting? {
      var front, mid := GathersAll(s, sign, PRECOMMIT_TYPE, h, start, events, net, i);
      more, next := ReturnsNow(s, start, front, mid, i);
      AllForStays(s, net, next, i, PRECOMMIT_TYPE, h);
    } else {
      more, next := events, net;
    }
    ReachedFacts(s, start, more, next);
    ReturnedIsVoted(s, next, i, h);
  }

  lemma {:induction false} AllHaveReturned(s: Setup, sign: Signer, data: ByteString, h: Hash, t: Time,
                                           start: seq<Event>, events: seq<Event>, net: Net, k: nat)
    returns (more: seq<Event>, next: Net)
    requires Able(s, sign, data, h, t) && Reaches(s, start, events, net) && ShapedNet(s, net)
    requires AllFor(s, net, PRECOMMIT_TYPE, h) && k <= |net| == |s.honest|
    requires forall i :: 0 <= i < |net| && s.honest[i] ==> Precommitted(net[i], h)
    ensures Reaches(s, start, more, next) && ShapedNet(s, next) && AllFor(s, next, PRECOMMIT_TYPE, h) && |next| == |net|
    ensures forall i :: 0 <= i < k && s.honest[i] ==> HasCommit(next[i], h)
    ensures forall i :: k <= i < |net| ==> next[i] == net[i]
  {
    hide Able, ShapedNet, Precommitted, HasCommit, AllFor, Reaches;
    AbleIsGood(s, sign, data, h, t);
    if k == 0 {
      more, next := events, net;
    } else {
      more, next := AllHaveReturned(s, sign, data, h, t, start, events, net, k - 1);
      if s.honest[k - 1] {
        more, next := HasReturned(s, sign, data, h, t, start, more, next, k - 1);
      }
    }
  }

  // ---- the theorem

  lemma PrevotesGiven(s: Setup, net: Net, h: Hash)
    requires |net| == |s.honest| == |s.vals| && forall i :: 0 <= i < |net| ==> KeepsWord(s, net[i])
    requires forall i :: 0 <= i < |net| && s.honest[i] ==> Prevoted(net[i], h)
    ensures AllFor(s, net, PREVOTE_TYPE, h)
  {
    hide SignedFor;
  }

  lemma PrecommitsGiven(s: Setup, net: Net, h: Hash)
    requires GoodSetup(s) && NetInv(s, net) && forall i :: 0 <= i < |net| ==> KeepsWord(s, net[i])
    requires forall i :: 0 <= i < |net| && s.honest[i] ==> Precommitted(net[i], h)
    ensures AllFor(s, net, PRECOMMIT_TYPE, h)
  {
    hide SignedFor, SetInv, Faithful, SignedInv, CommitInv, GoodSetup;
    forall i | 0 <= i < |net| && s.honest[i]
      ensures net[i].voted == Some(h) && SignedFor(s, net[i], PRECOMMIT_TYPE, h)
    {
      assert NodeInv(s, net[i]);
    }
  }

  /**
   * From every reachable net in which no honest node has failed and every honest vote so far is for the hash, with less
   * than a third faulty, some continuation lets every honest node return that hash. It may start anywhere: before,
   * during or after any of the votes, and whatever the others have sent.
   */
  lemma UnanimousNodesReturn(s: Setup, sign: Signer, data: ByteString, h: Hash, t: Time, events: seq<Event>, net: Net)
    returns (more: seq<Event>)
    requires Able(s, sign, data, h, t) && NetRun(s, events) == Some(net) && Unanimous(s, net, h)
    ensures GoodSetup(s) && events <= more && NetRun(s, more).Some? && |s.honest| == |s.vals|
    ensures forall i :: 0 <= i < |s.vals| && s.honest[i] ==> HasCommit(NetRun(s, more).value[i], h)
  {
    hide Able, Unanimous, ShapedNet, Prevoted, Precommitted, HasCommit, AllFor, NetRun, NetInv, KeepsWord, GoodSetup;
    AbleIsGood(s, sign, data, h, t);
    var e1, n1 := AllHavePrevoted(s, sign, data, h, t, events, net, |s.vals|) by { RunFacts(s, events, net); }
    ReachedFacts(s, events, e1, n1);
    PrevotesGiven(s, n1, h);
    var e2, n2 := AllHavePrecommitted(s, sign, data, h, t, events, e1, n1, |n1|);
    ReachedFacts(s, events, e2, n2);
    PrecommitsGiven(s, n2, h);
    var e3, n3 := AllHaveReturned(s, sign, data, h, t, events, e2, n2, |n2|);
    more := e3;
  }
}
