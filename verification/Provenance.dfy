/** Where the data and the votes of the honest nodes come from: signed proposals and signed votes that were received. */
module Provenance {
  import opened Bytes
  import opened Options
  import opened Proposers
  import opened Quorums
  import opened Varints
  import opened Canonical
  import opened Votes
  import opened Proposals
  import opened VoteSets
  import opened VoteSetInvariant
  import opened VoteOrigins
  import opened Commits
  import opened Agreement

  // ---- the data

  /** The data that the node waits to take, or has taken. */
  ghost predicate Carries(node: Node, d: ByteString) {
    || node.inbox == Some(d)
    || ((node.phase.Prevoting? || node.phase.Precommitting? || node.phase.Returned?) && node.phase.data == d)
  }

  /** The node received the data under a signature that verifies under the proposer's key over the proposal bytes. */
  ghost predicate CameSigned(s: Setup, events: seq<Event>, i: nat, d: ByteString)
    requires s.proposer < |s.vals|
  {
    exists t, signature :: ReceiveProposal(i, d, t, signature) in events && SignedProposal(s, d, t, signature)
  }

  ghost predicate SignedProposal(s: Setup, d: ByteString, t: Time, signature: Signature)
    requires s.proposer < |s.vals|
  {
    var bytes := ProposalBytes(s.crypto.times, s.chainID, d, t);
    bytes.Some? && s.crypto.verify(s.vals[s.proposer].pubKey, bytes.value, signature)
  }

  lemma StillCame(s: Setup, events: seq<Event>, e: Event, i: nat, d: ByteString)
    requires s.proposer < |s.vals| && CameSigned(s, events, i, d)
    ensures CameSigned(s, events + [e], i, d)
  {
    hide SignedProposal;
    var t, signature :| ReceiveProposal(i, d, t, signature) in events && SignedProposal(s, d, t, signature);
    assert ReceiveProposal(i, d, t, signature) in events + [e];
  }

  /** One step: what a node carries it carried before, or has just received properly signed. */
  lemma CarriedStep(s: Setup, net: Net, e: Event, i: nat, d: ByteString)
    requires ShapedNet(s, net) && Enabled(s, net, e) && i < |net| && Carries(NetStep(s, net, e)[i], d)
    ensures Carries(net[i], d)
            || (e.ReceiveProposal? && e.node == i && e.data == d && SignedProposal(s, d, e.t, e.signature))
  {
    hide ProposalBytes, SignBytes, AddVote, MakeCommit, Unforged, SelfIndex, Shaped;
  }

  /**
   * In every run: whatever data an honest node waits for, votes on or returns, it received as a proposal whose
   * signature verifies under the proposer's key.
   */
  lemma {:induction false} DataWasSigned(s: Setup, events: seq<Event>, i: nat, d: ByteString)
    requires GoodSetup(s) && NetRun(s, events).Some? && i < |s.vals| && Carries(NetRun(s, events).value[i], d)
    ensures CameSigned(s, events, i, d)
  {
    hide GoodSetup, SignedProposal, NetStep, Enabled, Carries, CameSigned;
    if |events| == 0 {
      NothingCarried(s, i, d);
    } else {
      var front, e := events[..|events| - 1], events[|events| - 1];
      assert events == front + [e];
      CarriedStep(s, NetRun(s, front).value, e, i, d);
      if Carries(NetRun(s, front).value[i], d) {
        DataWasSigned(s, front, i, d);
        StillCame(s, front, e, i, d);
      } else {
        CameNow(s, front, e, i, d);
      }
    }
  }

  lemma NothingCarried(s: Setup, i: nat, d: ByteString)
    requires i < |s.vals|
    ensures !Carries(NewNet(s)[i], d)
  {
    hide NewState;
  }

  lemma CameNow(s: Setup, events: seq<Event>, e: Event, i: nat, d: ByteString)
    requires s.proposer < |s.vals| && e.ReceiveProposal? && e.node == i && e.data == d
    requires SignedProposal(s, d, e.t, e.signature)
    ensures CameSigned(s, events + [e], i, d)
  {
    hide SignedProposal;
    assert (events + [e])[|events|] == ReceiveProposal(i, d, e.t, e.signature);
  }

  // ---- what the proposer signed

  /** The node's own proposal, made when it started. */
  ghost predicate OwnProposal(s: Setup, events: seq<Event>, i: nat, bytes: ByteString) {
    exists d, t :: Event.Start(i, d, t) in events && ProposalBytes(s.crypto.times, s.chainID, d, t) == Some(bytes)
  }

  lemma SignedStep(s: Setup, net: Net, e: Event, i: nat, bytes: ByteString)
    requires ShapedNet(s, net) && Enabled(s, net, e) && i < |net| && bytes in NetStep(s, net, e)[i].signed
    requires IsProposal(s, bytes)
    ensures bytes in net[i].signed
            || (e.Start? && e.node == i && ProposalBytes(s.crypto.times, s.chainID, e.data, e.t) == Some(bytes)
                && s.vals[s.proposer].address == s.crypto.addressOf(s.vals[i].pubKey))
  {
    hide ProposalBytes, SignBytes, AddVote, MakeCommit, Unforged, SelfIndex, Shaped;
    if e.Prevote? && e.node == i {
      NeverAVote(s, bytes, PREVOTE_TYPE, e.hash, e.t);
    } else if e.Precommit? && e.node == i {
      NeverAVote(s, bytes, PRECOMMIT_TYPE, net[i].phase.hash, e.t);
    }
  }

  lemma NeverAVote(s: Setup, bytes: ByteString, m: Int32, h: Hash, t: Time)
    requires IsProposal(s, bytes) && (m == PREVOTE_TYPE || m == PRECOMMIT_TYPE)
    ensures SignBytes(s.crypto.times, s.chainID, m, h, t) != Some(bytes)
  {
    hide ProposalBytes, SignBytes;
    var d, t' :| ProposalBytes(s.crypto.times, s.chainID, d, t') == Some(bytes);
    if SignBytes(s.crypto.times, s.chainID, m, h, t) == Some(bytes) {
      ProposalIsNoVote(s.crypto.times, s.chainID, d, t', s.chainID, m, h, t);
      assert false;
    }
  }

  /** An honest key signs no proposal but the one its node started with, and only under the proposer's address. */
  lemma {:induction false} SignsOwnProposal(s: Setup, events: seq<Event>, i: nat, bytes: ByteString)
    requires GoodSetup(s) && NetRun(s, events).Some? && i < |s.vals|
    requires bytes in NetRun(s, events).value[i].signed && IsProposal(s, bytes)
    ensures OwnProposal(s, events, i, bytes)
    ensures s.vals[s.proposer].address == s.crypto.addressOf(s.vals[i].pubKey)
  {
    hide GoodSetup, NetStep, Enabled, ProposalBytes, IsProposal, NewState;
    if |events| > 0 {
      var front, e := events[..|events| - 1], events[|events| - 1];
      assert events == front + [e];
      SignedStep(s, NetRun(s, front).value, e, i, bytes);
      if bytes in NetRun(s, front).value[i].signed {
        SignsOwnProposal(s, front, i, bytes);
        var d, t :| Event.Start(i, d, t) in front && ProposalBytes(s.crypto.times, s.chainID, d, t) == Some(bytes);
        assert Event.Start(i, d, t) in events;
      } else {
        assert events[|front|] == Event.Start(i, e.data, e.t);
      }
    }
  }

  // ---- a node starts once

  lemma {:induction false} StartedMoves(s: Setup, events: seq<Event>, i: nat, k: nat)
    requires GoodSetup(s) && NetRun(s, events).Some? && i < |s.vals| && k < |events|
    requires events[k].Start? && events[k].node == i
    ensures NetRun(s, events).value[i].phase != Idle
  {
    hide GoodSetup, ProposalBytes, SignBytes, AddVote, MakeCommit, Unforged, SelfIndex, ShapedNode, NewState;
    var n := |events| - 1;
    if k < n { StartedMoves(s, events[..n], i, k); }
  }

  lemma {:induction false} PrefixRuns(s: Setup, events: seq<Event>, k: nat)
    requires GoodSetup(s) && NetRun(s, events).Some? && k <= |events|
    ensures NetRun(s, events[..k]).Some?
  {
    hide GoodSetup, Enabled, NetStep;
    if k < |events| {
      PrefixRuns(s, events[..|events| - 1], k);
      assert events[..|events| - 1][..k] == events[..k];
    } else {
      assert events[..k] == events;
    }
  }

  lemma StartsIdle(s: Setup, events: seq<Event>, i: nat)
    requires GoodSetup(s) && NetRun(s, events).Some? && i < |s.vals| && |events| > 0
    requires events[|events| - 1].Start? && events[|events| - 1].node == i
    ensures NetRun(s, events[..|events| - 1]).Some?
    ensures NetRun(s, events[..|events| - 1]).value[i].phase == Idle
  {
    hide GoodSetup, NetStep, Unforged, SelfIndex, NewNet, ShapedNode;
  }

  /** No honest node proposes twice. */
  lemma {:induction false} StartsOnce(s: Setup, events: seq<Event>, i: nat, k: nat, l: nat)
    requires GoodSetup(s) && NetRun(s, events).Some? && i < |s.vals| && k <= l < |events|
    requires events[k].Start? && events[k].node == i && events[l].Start? && events[l].node == i
    ensures k == l
    decreases |events|
  {
    hide GoodSetup, NetRun;
    var n := |events| - 1;
    PrefixRuns(s, events, n);
    if l < n {
      StartsOnce(s, events[..n], i, k, l);
    } else if k < n {
      StartedMoves(s, events[..n], i, k);
      StartsIdle(s, events, i);
      assert false;
    }
  }

  /** Before AgreeOn is called nothing reaches a node. */
  lemma {:induction false} IdleIsNew(s: Setup, events: seq<Event>, i: nat)
    requires GoodSetup(s) && NetRun(s, events).Some? && i < |s.vals| && NetRun(s, events).value[i].phase == Idle
    ensures NetRun(s, events).value[i]
            == Node(Idle, None, NewState(Cfg(s, 1)), NewState(Cfg(s, 2)), None, {})
  {
    hide GoodSetup, ProposalBytes, SignBytes, AddVote, MakeCommit, Unforged, SelfIndex, ShapedNode, NewState;
    if |events| > 0 { IdleIsNew(s, events[..|events| - 1], i); }
  }

  /** A node takes part under the last index of its key only. */
  lemma {:induction false} LastIndexOnly(s: Setup, events: seq<Event>, i: nat)
    requires GoodSetup(s) && NetRun(s, events).Some? && i < |s.vals| && NetRun(s, events).value[i].phase != Idle
    ensures forall j :: i < j < |s.vals| ==> s.vals[j].pubKey != s.vals[i].pubKey
  {
    hide GoodSetup, ProposalBytes, SignBytes, AddVote, MakeCommit, Unforged, ShapedNode, NewState, SelfIndex;
    if |events| > 0 {
      var front := events[..|events| - 1];
      if NetRun(s, front).value[i].phase != Idle { LastIndexOnly(s, front, i); }
    }
  }

  /** So no key takes part twice, also in a set that lists it twice. */
  lemma OneIndexPerKey(s: Setup, events: seq<Event>, i: nat, j: nat)
    requires GoodSetup(s) && NetRun(s, events).Some? && i < |s.vals| && j < |s.vals| && i != j
    requires NetRun(s, events).value[i].phase != Idle && NetRun(s, events).value[j].phase != Idle
    ensures s.vals[i].pubKey != s.vals[j].pubKey
  {
    hide GoodSetup, NetRun;
    LastIndexOnly(s, events, i);
    LastIndexOnly(s, events, j);
  }

  // ---- an honest proposer

  /** Signatures on proposals that verify under the proposer's key were made by the proposer, before they arrived. */
  ghost predicate UnforgedProposals(s: Setup, events: seq<Event>)
    requires GoodSetup(s)
  {
    forall k :: 0 <= k < |events| && events[k].ReceiveProposal? && NetRun(s, events[..k]).Some?
                && SignedProposal(s, events[k].data, events[k].t, events[k].signature) ==>
      ProposalBytes(s.crypto.times, s.chainID, events[k].data, events[k].t).value
      in NetRun(s, events[..k]).value[s.proposer].signed
  }

  /** What an honest proposer wanted is what every honest node takes, votes on and returns. */
  lemma HonestProposerDecides(s: Setup, events: seq<Event>, i: nat, d: ByteString)
    requires GoodSetup(s) && NetRun(s, events).Some? && i < |s.vals| && Carries(NetRun(s, events).value[i], d)
    requires UnforgedProposals(s, events)
    ensures exists t :: Event.Start(s.proposer, d, t) in events
  {
    hide NetRun, ProposalBytes, Carries, TimesRoundTrip, TotalPower;
    DataWasSigned(s, events, i, d);
    var t, signature :| ReceiveProposal(i, d, t, signature) in events && SignedProposal(s, d, t, signature);
    var k :| 0 <= k < |events| && events[k] == ReceiveProposal(i, d, t, signature);
    PrefixRuns(s, events, k);
    var bytes := ProposalBytes(s.crypto.times, s.chainID, d, t).value;
    assert IsProposal(s, bytes);
    SignsOwnProposal(s, events[..k], s.proposer, bytes);
    var d', t' :| Event.Start(s.proposer, d', t') in events[..k]
                  && ProposalBytes(s.crypto.times, s.chainID, d', t') == Some(bytes);
    ProposalBytesInjective(s.crypto.times, s.chainID, d, t, s.chainID, d', t');
    assert Event.Start(s.proposer, d, t) in events;
  }

  /** So under an honest proposer any two honest nodes carry the same data. */
  lemma HonestProposerAgrees(s: Setup, events: seq<Event>, i: nat, j: nat, d: ByteString, d': ByteString)
    requires GoodSetup(s) && NetRun(s, events).Some? && i < |s.vals| && j < |s.vals|
    requires Carries(NetRun(s, events).value[i], d) && Carries(NetRun(s, events).value[j], d')
    requires UnforgedProposals(s, events)
    ensures d == d'
  {
    hide GoodSetup, NetRun, Carries, UnforgedProposals;
    HonestProposerDecides(s, events, i, d);
    HonestProposerDecides(s, events, j, d');
    SameStart(s, events, d, d');
  }

  lemma SameStart(s: Setup, events: seq<Event>, d: ByteString, d': ByteString)
    requires GoodSetup(s) && NetRun(s, events).Some?
    requires exists t :: Event.Start(s.proposer, d, t) in events
    requires exists t :: Event.Start(s.proposer, d', t) in events
    ensures d == d'
  {
    hide NetRun, TimesRoundTrip, TotalPower;
    var t :| Event.Start(s.proposer, d, t) in events;
    var t' :| Event.Start(s.proposer, d', t') in events;
    var k :| 0 <= k < |events| && events[k] == Event.Start(s.proposer, d, t);
    var l :| 0 <= l < |events| && events[l] == Event.Start(s.proposer, d', t');
    if k <= l { StartsOnce(s, events, s.proposer, k, l); } else { StartsOnce(s, events, s.proposer, l, k); }
  }

  // ---- what the nodes return

  lemma StepTaken(s: Setup, events: seq<Event>, k: nat)
    requires GoodSetup(s) && NetRun(s, events).Some? && k < |events|
    ensures NetRun(s, events[..k]).Some? && Enabled(s, NetRun(s, events[..k]).value, events[k])
  {
    hide GoodSetup, Enabled, NetStep, NewNet;
    PrefixRuns(s, events, k + 1);
    assert events[..k + 1][..k] == events[..k];
  }

  /** The application's validate, as far as honest nodes call it: a function from data to hashes. */
  ghost predicate ValidatesWith(s: Setup, events: seq<Event>, hashOf: ByteString -> Hash)
    requires GoodSetup(s)
  {
    forall k :: 0 <= k < |events| && events[k].Prevote? && NetRun(s, events[..k]).Some?
                && Taken(NetRun(s, events[..k]).value, events[k].node).Some? ==>
      events[k].hash == hashOf(Taken(NetRun(s, events[..k]).value, events[k].node).value)
  }

  /** The proposal that the node is about to take. */
  ghost function Taken(net: Net, i: nat): Option<ByteString> {
    if i < |net| then net[i].inbox else None
  }

  lemma UnforgedPrefix(s: Setup, events: seq<Event>, k: nat)
    requires GoodSetup(s) && UnforgedProposals(s, events) && k <= |events|
    ensures UnforgedProposals(s, events[..k])
  {
    hide GoodSetup, NetRun, SignedProposal, ProposalBytes;
    forall l | 0 <= l < k ensures events[..k][..l] == events[..l] {
    }
  }

  /** A prevote is cast on a proposal taken. */
  lemma PrevoteTakes(s: Setup, events: seq<Event>, k: nat)
    requires GoodSetup(s) && NetRun(s, events).Some? && k < |events| && events[k].Prevote?
    ensures NetRun(s, events[..k]).Some? && events[k].node < |s.vals|
    ensures NetRun(s, events[..k]).value[events[k].node].inbox.Some?
  {
    hide GoodSetup, NetRun, SignBytes, Unforged, ShapedNode;
    StepTaken(s, events, k);
  }

  /**
   * Under an honest proposer, with at most a third faulty: what a node returns is the proposer's data, and the commit
   * it returns is for the hash of that data.
   */
  lemma ReturnedCommitIsForTheData(s: Setup, events: seq<Event>, i: nat, hashOf: ByteString -> Hash)
    requires GoodSetup(s) && NetRun(s, events).Some? && UnforgedProposals(s, events)
    requires ValidatesWith(s, events, hashOf) && 3 * Weight(s.vals, Faulty(s)) <= TotalPower(s.vals)
    requires i < |s.vals| && NetRun(s, events).value[i].phase.Returned?
    ensures var phase := NetRun(s, events).value[i].phase;
      && (exists t :: Event.Start(s.proposer, phase.data, t) in events)
      && phase.commit.dataHash == hashOf(phase.data)
  {
    hide GoodSetup, NetRun, UnforgedProposals, Weight, TotalPower;
    var phase := NetRun(s, events).value[i].phase;
    HonestProposerDecides(s, events, i, phase.data);
    var k := CommitWasValidated(s, events, i);
    var t :| Prevote(k, phase.commit.dataHash, t) in events;
    var n :| 0 <= n < |events| && events[n] == Prevote(k, phase.commit.dataHash, t);
    PrevoteTakes(s, events, n);
    var d := NetRun(s, events[..n]).value[k].inbox.value;
    UnforgedPrefix(s, events, n);
    HonestProposerDecides(s, events[..n], k, d);
    var t' :| Event.Start(s.proposer, d, t') in events[..n];
    assert Event.Start(s.proposer, d, t') in events;
    SameStart(s, events, d, phase.data);
  }

  // ---- the votes

  /** A node precommits only over a majority of its prevotes, cast by more than two thirds of the power. */
  lemma PrecommitFollowsPrevotes(s: Setup, events: seq<Event>, k: nat) returns (pick: seq<bool>)
    requires GoodSetup(s) && NetRun(s, events).Some? && k < |events| && events[k].Precommit?
    ensures NetRun(s, events[..k]).Some? && events[k].node < |s.vals|
    ensures var st := NetRun(s, events[..k]).value[events[k].node].prevotes;
      && st.maj23.Some?
      && |pick| == |s.vals| && Weight(s.vals, pick) > TotalPower(s.vals) * 2 / 3
      && forall j :: 0 <= j < |pick| && pick[j] ==> exists w :: Holds(st, j, w) && w.dataHash == st.maj23.value
  {
    hide GoodSetup, NetRun, Weight, TotalPower, Holds, SignedInv, PhaseInv, Faithful, BlocksInv, VotesInv,
         MajorityInv, BoundedInv, ShapedNode, SignBytes;
    StepTaken(s, events, k);
    NetRunInv(s, events[..k]);
    var net, i := NetRun(s, events[..k]).value, events[k].node;
    assert NodeInv(s, net[i]);
    pick := MajorityVoters(s, PREVOTE_TYPE, net[i].prevotes);
  }

  /** The vote was received, is well-formed, and is signed by the validator at its index. */
  ghost predicate Received(s: Setup, events: seq<Event>, i: nat, m: Int32, j: nat, w: Vote) {
    && ReceiveVote(i, w) in events && w.msgType == m
    && j < |s.vals| && w.index == j && w.address == s.vals[j].address == s.crypto.addressOf(s.vals[j].pubKey)
    && |w.address| == 20 && (|w.dataHash| == 0 || |w.dataHash| == 32) && 0 < |w.signature| <= 64
    && SignBytes(s.crypto.times, s.chainID, m, w.dataHash, w.timestamp).Some?
    && s.crypto.verify(s.vals[j].pubKey,
                       SignBytes(s.crypto.times, s.chainID, m, w.dataHash, w.timestamp).value, w.signature)
  }

  lemma VoteStored(s: Setup, events: seq<Event>, i: nat, m: Int32, st: State, v: Vote, j: nat, w: Vote)
    requires Shaped(Cfg(s, m), st) && ValidateBasic(v) && Holds(AddVote(Cfg(s, m), st, Some(v)).0, j, w)
    ensures Holds(st, j, w) || Received(s, events + [ReceiveVote(i, v)], i, m, j, w)
  {
    hide SignBytes, Holds, AddVote, Shaped;
    AddVoteOrigin(Cfg(s, m), st, Some(v), j, w);
    assert (events + [ReceiveVote(i, v)])[|events|] == ReceiveVote(i, v);
    if !Holds(st, j, w) {
      assert Verify(s.crypto, s.chainID, s.vals[j].pubKey, w) == Valid;
    }
  }

  ghost predicate HeldReceived(s: Setup, events: seq<Event>, i: nat, node: Node) {
    && (forall j: nat, w :: Holds(node.prevotes, j, w) ==> Received(s, events, i, 1, j, w))
    && (forall j: nat, w :: Holds(node.precommits, j, w) ==> Received(s, events, i, 2, j, w))
  }

  lemma HeldStill(s: Setup, events: seq<Event>, e: Event, i: nat, node: Node)
    requires HeldReceived(s, events, i, node)
    ensures HeldReceived(s, events + [e], i, node)
  {
    hide Holds, SignBytes;
  }

  lemma HeldStep(s: Setup, events: seq<Event>, node: Node, e: Event)
    requires e.node < |s.vals| && s.proposer < |s.vals| && ShapedNode(s, node) && Ready(s, node, e)
    requires HeldReceived(s, events, e.node, node)
    ensures HeldReceived(s, events + [e], e.node, NodeAfter(s, node, e))
  {
    hide Holds, SignBytes, ProposalBytes, AddVote, MakeCommit, Shaped, Received, SelfIndex, ValidateBasic, HeldReceived;
    HeldStill(s, events, e, e.node, node);
    var next := NodeAfter(s, node, e);
    forall j: nat, w | Holds(next.prevotes, j, w) ensures Received(s, events + [e], e.node, 1, j, w) {
      HeldMeans(s, events + [e], e.node, node, j, w);
      if e.ReceiveVote? && e.vote.msgType == PREVOTE_TYPE {
        VoteStored(s, events, e.node, PREVOTE_TYPE, node.prevotes, e.vote, j, w);
      }
    }
    forall j: nat, w | Holds(next.precommits, j, w) ensures Received(s, events + [e], e.node, 2, j, w) {
      HeldMeans(s, events + [e], e.node, node, j, w);
      if e.ReceiveVote? && e.vote.msgType != PREVOTE_TYPE {
        VoteStored(s, events, e.node, PRECOMMIT_TYPE, node.precommits, e.vote, j, w);
      }
    }
    HeldSummed(s, events + [e], e.node, next);
  }

  lemma HeldMeans(s: Setup, events: seq<Event>, i: nat, node: Node, j: nat, w: Vote)
    requires HeldReceived(s, events, i, node)
    ensures Holds(node.prevotes, j, w) ==> Received(s, events, i, 1, j, w)
    ensures Holds(node.precommits, j, w) ==> Received(s, events, i, 2, j, w)
  {
    hide Holds, Received;
  }

  lemma HeldSummed(s: Setup, events: seq<Event>, i: nat, node: Node)
    requires forall j: nat, w :: Holds(node.prevotes, j, w) ==> Received(s, events, i, 1, j, w)
    requires forall j: nat, w :: Holds(node.precommits, j, w) ==> Received(s, events, i, 2, j, w)
    ensures HeldReceived(s, events, i, node)
  {
    hide Holds, Received;
  }

  /** Every vote an honest node holds was received, is well-formed and is signed by the validator it counts for. */
  lemma {:induction false} HeldVotesAreSigned(s: Setup, events: seq<Event>, i: nat)
    requires GoodSetup(s) && NetRun(s, events).Some? && i < |s.vals|
    ensures HeldReceived(s, events, i, NetRun(s, events).value[i])
  {
    hide GoodSetup, HeldReceived, NodeAfter, Ready, Unforged, ShapedNode;
    if |events| == 0 {
      NothingReceived(s, i);
    } else {
      var front, e := events[..|events| - 1], events[|events| - 1];
      assert events == front + [e];
      HeldVotesAreSigned(s, front, i);
      var node := NetRun(s, front).value[i];
      if e.node == i { HeldStep(s, front, node, e); } else { HeldStill(s, front, e, i, node); }
    }
  }

  lemma NothingReceived(s: Setup, i: nat)
    requires i < |s.vals|
    ensures HeldReceived(s, [], i, NewNet(s)[i])
  {
    hide NewState, Holds, Received;
    forall j: nat, w
      ensures !Holds(NewState(Cfg(s, PREVOTE_TYPE)), j, w) && !Holds(NewState(Cfg(s, PRECOMMIT_TYPE)), j, w)
    {
      NothingHeld(Cfg(s, PREVOTE_TYPE), j, w);
      NothingHeld(Cfg(s, PRECOMMIT_TYPE), j, w);
    }
  }
}
