/** What runs of the agreement are possible: every node can return, and when two nodes can disagree, exactly. */
module AgreementRuns {
  import opened Options
  import opened Bytes
  import opened Proposers
  import opened Quorums
  import opened Varints
  import opened Canonical
  import opened Votes
  import opened Proposals
  import opened VoteSets
  import opened VoteSetInvariant
  import opened Tallies
  import opened Commits
  import opened Agreement

  /** How each validator signs. */
  type Signer = (nat, ByteString) -> Signature

  /** A validator's signatures are accepted under its own key and under no other honest one. */
  ghost predicate KeyedAt(s: Setup, sign: Signer, k: nat)
    requires k < |s.vals| == |s.honest|
  {
    && s.vals[k].address == s.crypto.addressOf(s.vals[k].pubKey) && |s.vals[k].address| == 20
    && (forall bytes :: 0 < |sign(k, bytes)| <= 64 && s.crypto.verify(s.vals[k].pubKey, bytes, sign(k, bytes)))
    && (forall j, bytes :: 0 <= j < |s.vals| && j != k && s.honest[j] ==>
          !s.crypto.verify(s.vals[j].pubKey, bytes, sign(k, bytes)))
  }

  ghost predicate Keyed(s: Setup, sign: Signer) {
    |s.vals| == |s.honest| && forall k :: 0 <= k < |s.vals| ==> KeyedAt(s, sign, k)
  }

  ghost predicate Signable(s: Setup, h: Hash, t: Time) {
    && SignBytes(s.crypto.times, s.chainID, PREVOTE_TYPE, h, t).Some?
    && SignBytes(s.crypto.times, s.chainID, PRECOMMIT_TYPE, h, t).Some?
  }

  /** Which hash each validator's validation yields, and which hash each node is to return. */
  datatype Plan = Plan(data: ByteString, t: Time, votes: seq<Hash>, goals: seq<Hash>)

  /** The votes a node gets to see: those of honest validators for its hash, and those of all others. */
  function Heard(s: Setup, p: Plan, i: nat): (r: seq<bool>)
    requires |p.votes| == |p.goals| == |s.honest| && i < |s.honest|
    ensures |r| == |s.honest|
  {
    seq(|s.honest|, k requires 0 <= k < |s.honest| => !s.honest[k] || p.votes[k] == p.goals[i])
  }

  ghost predicate Possible(s: Setup, sign: Signer, p: Plan) {
    && GoodSetup(s) && Keyed(s, sign) && |p.votes| == |p.goals| == |s.vals|
    && ProposalBytes(s.crypto.times, s.chainID, p.data, p.t).Some?
    && (forall k :: 0 <= k < |s.vals| ==> Signable(s, p.votes[k], p.t) && Signable(s, p.goals[k], p.t))
    && forall i :: 0 <= i < |s.vals| && s.honest[i] ==> Weight(s.vals, Heard(s, p, i)) > TotalPower(s.vals) * 2 / 3
  }

  /** The bytes of a vote of the plan. */
  function BytesOf(s: Setup, m: Int32, h: Hash, t: Time): ByteString
    requires SignBytes(s.crypto.times, s.chainID, m, h, t).Some?
  {
    SignBytes(s.crypto.times, s.chainID, m, h, t).value
  }

  ghost predicate IsVoteType(m: Int32) { m == PREVOTE_TYPE || m == PRECOMMIT_TYPE }

  function VoteOf(s: Setup, sign: Signer, k: nat, m: Int32, h: Hash, t: Time): Vote
    requires k < |s.vals| <= 0x7FFF_FFFF && SignBytes(s.crypto.times, s.chainID, m, h, t).Some?
  {
    Vote(m, h, t, s.vals[k].address, k, sign(k, BytesOf(s, m, h, t)))
  }

  // ---- one event more

  lemma Extend(s: Setup, events: seq<Event>, net: Net, e: Event)
    requires GoodSetup(s) && NetRun(s, events) == Some(net) && ShapedNet(s, net) && Enabled(s, net, e)
    ensures NetRun(s, events + [e]) == Some(NetStep(s, net, e))
    ensures NetStep(s, net, e) == net[e.node := NodeAfter(s, net[e.node], e)] && ShapedNet(s, NetStep(s, net, e))
  {
    hide GoodSetup, NodeAfter;
    assert (events + [e])[..|events|] == events;
  }

  /** The index a node finds for its own key is its own. */
  lemma OwnIndex(s: Setup, sign: Signer, i: nat)
    requires Keyed(s, sign) && i < |s.vals| && s.honest[i]
    ensures SelfIndex(s.vals, s.vals[i].pubKey) == i
  {
    forall j | 0 <= j < |s.vals| && j != i ensures s.vals[j].pubKey != s.vals[i].pubKey {
      assert KeyedAt(s, sign, j);
      assert s.crypto.verify(s.vals[j].pubKey, [], sign(j, []));
    }
  }

  // ---- the first stage: every honest node prevotes

  ghost predicate AtPrevote(s: Setup, p: Plan, node: Node, i: nat)
    requires i < |p.votes|
  {
    && node.phase == Prevoting(p.data, p.votes[i])
    && node.prevotes == NewState(Cfg(s, PREVOTE_TYPE)) && node.precommits == NewState(Cfg(s, PRECOMMIT_TYPE))
    && Signable(s, p.votes[i], p.t) && BytesOf(s, PREVOTE_TYPE, p.votes[i], p.t) in node.signed
  }

  lemma Opens(s: Setup, sign: Signer, p: Plan, events: seq<Event>, net: Net, i: nat)
    returns (more: seq<Event>, next: Net)
    requires Possible(s, sign, p) && NetRun(s, events) == Some(net) && ShapedNet(s, net)
    requires i < |s.vals| && s.honest[i] && net[i] == NewNode(s)
    ensures NetRun(s, more) == Some(next) && ShapedNet(s, next)
    ensures next == net[i := next[i]] && next[i].phase == Proposing && next[i].inbox == Some(p.data)
    ensures next[i].prevotes == net[i].prevotes && next[i].precommits == net[i].precommits
  {
    hide SignBytes, ProposalBytes, Shaped, AddVote, NewState, GoodSetup, SelfIndex, Signable, Heard;
    assert GoodSetup(s) && |s.vals| <= 0x7FFF_FFFF && s.proposer < |s.vals| by { SetupFits(s); }
    OwnIndex(s, sign, i);
    assert KeyedAt(s, sign, s.proposer);
    var bytes := ProposalBytes(s.crypto.times, s.chainID, p.data, p.t).value;
    var first, second := Start(i, p.data, p.t), ReceiveProposal(i, p.data, p.t, sign(s.proposer, bytes));
    Extend(s, events, net, first);
    var mid := NetStep(s, net, first);
    Extend(s, events + [first], mid, second);
    next := NetStep(s, mid, second);
    more := events + [first] + [second];
  }

  lemma SetupFits(s: Setup)
    requires GoodSetup(s)
    ensures |s.honest| == |s.vals| <= 0x7FFF_FFFF && s.proposer < |s.vals|
  {
  }

  lemma Prevotes(s: Setup, sign: Signer, p: Plan, events: seq<Event>, net: Net, i: nat)
    returns (more: seq<Event>, next: Net)
    requires Possible(s, sign, p) && NetRun(s, events) == Some(net) && ShapedNet(s, net)
    requires i < |s.vals| && s.honest[i] && net[i] == NewNode(s)
    ensures NetRun(s, more) == Some(next) && ShapedNet(s, next)
    ensures next == net[i := next[i]] && AtPrevote(s, p, next[i], i)
  {
    hide SignBytes, ProposalBytes, Shaped, AddVote, NewState, GoodSetup, SelfIndex, Heard, Keyed;
    assert Signable(s, p.votes[i], p.t);
    SetupFits(s);
    var front, mid := Opens(s, sign, p, events, net, i);
    var e := Prevote(i, p.votes[i], p.t);
    Extend(s, front, mid, e);
    next := NetStep(s, mid, e);
    more := front + [e];
  }

  lemma {:induction false} AllPrevote(s: Setup, sign: Signer, p: Plan, k: nat) returns (events: seq<Event>, net: Net)
    requires Possible(s, sign, p) && k <= |s.vals|
    ensures NetRun(s, events) == Some(net) && ShapedNet(s, net)
    ensures forall i :: 0 <= i < k && s.honest[i] ==> AtPrevote(s, p, net[i], i)
    ensures forall i :: k <= i < |s.vals| ==> net[i] == NewNode(s)
  {
    hide Possible, NewNode, AtPrevote, ShapedNet, NetRun, GoodSetup;
    PossibleIsGood(s, sign, p);
    if k == 0 {
      events, net := Beginning(s);
    } else {
      events, net := AllPrevote(s, sign, p, k - 1);
      ShapedSize(s, net);
      if s.honest[k - 1] {
        events, net := Prevotes(s, sign, p, events, net, k - 1);
      }
    }
  }

  lemma Beginning(s: Setup) returns (events: seq<Event>, net: Net)
    requires GoodSetup(s)
    ensures NetRun(s, events) == Some(net) && ShapedNet(s, net)
    ensures |net| == |s.vals| && forall i :: 0 <= i < |s.vals| ==> net[i] == NewNode(s)
  {
    hide GoodSetup, NewNode, ShapedNode;
    events, net := [], NewNet(s);
    assert NetRun(s, events) == Some(net);
  }

  lemma PossibleIsGood(s: Setup, sign: Signer, p: Plan)
    requires Possible(s, sign, p)
    ensures GoodSetup(s) && |s.honest| == |s.vals| == |p.votes| == |p.goals| <= 0x7FFF_FFFF && s.proposer < |s.vals|
  {
  }

  // ---- a node hears the votes of one type

  /** Every honest node has signed its vote of the type. */
  ghost predicate AllSigned(s: Setup, p: Plan, net: Net, m: Int32) {
    && |net| == |s.honest| == |p.votes|
    && forall j :: 0 <= j < |net| && s.honest[j] ==>
         && SignBytes(s.crypto.times, s.chainID, m, p.votes[j], p.t).Some?
         && BytesOf(s, m, p.votes[j], p.t) in net[j].signed
  }

  /** The votes heard from the first k validators. */
  function HeardVotes(s: Setup, sign: Signer, p: Plan, i: nat, m: Int32, k: nat): (r: Slots)
    requires |p.votes| == |p.goals| == |s.honest| == |s.vals| <= 0x7FFF_FFFF && i < |s.honest|
    requires SignBytes(s.crypto.times, s.chainID, m, p.goals[i], p.t).Some?
    ensures |r| == |s.vals|
  {
    seq(|s.vals|, j requires 0 <= j < |s.vals| =>
      if j < k && Heard(s, p, i)[j] then Some(VoteOf(s, sign, j, m, p.goals[i], p.t)) else None)
  }

  lemma VotePasses(s: Setup, sign: Signer, k: nat, m: Int32, h: Hash, t: Time)
    requires GoodSetup(s) && Keyed(s, sign) && k < |s.vals| && IsVoteType(m)
    requires SignBytes(s.crypto.times, s.chainID, m, h, t).Some?
    ensures Stored(Cfg(s, m), k, VoteOf(s, sign, k, m, h, t)) && ValidateBasic(VoteOf(s, sign, k, m, h, t))
  {
    hide SignBytes, TotalPower, TimesRoundTrip;
    assert KeyedAt(s, sign, k);
  }

  /** A vote is unforged once its honest signer, if it has one, has signed it. */
  lemma VoteIsUnforged(s: Setup, sign: Signer, p: Plan, net: Net, i: nat, k: nat, m: Int32)
    requires Possible(s, sign, p) && AllSigned(s, p, net, m) && IsVoteType(m)
    requires i < |s.vals| && k < |s.vals| && Heard(s, p, i)[k]
    requires SignBytes(s.crypto.times, s.chainID, m, p.goals[i], p.t).Some? && |s.vals| <= 0x7FFF_FFFF
    ensures Unforged(s, net, VoteOf(s, sign, k, m, p.goals[i], p.t))
  {
    hide SignBytes, TotalPower, GoodSetup, Weight, Signable;
    assert KeyedAt(s, sign, k);
  }

  function SetOf(node: Node, m: Int32): State { if m == PREVOTE_TYPE then node.prevotes else node.precommits }

  function WithSet(node: Node, m: Int32, st: State): Node {
    if m == PREVOTE_TYPE then node.(prevotes := st) else node.(precommits := st)
  }

  /** One vote delivered. */
  lemma Delivers(s: Setup, sign: Signer, p: Plan, events: seq<Event>, net: Net, i: nat, k: nat, m: Int32, votes: Slots)
    returns (more: seq<Event>, next: Net)
    requires Possible(s, sign, p) && NetRun(s, events) == Some(net) && ShapedNet(s, net) && AllSigned(s, p, net, m)
    requires IsVoteType(m) && i < |s.vals| && s.honest[i] && net[i].phase != Idle && |s.vals| <= 0x7FFF_FFFF
    requires k < |s.vals| && Heard(s, p, i)[k]
    requires SignBytes(s.crypto.times, s.chainID, m, p.goals[i], p.t).Some?
    requires |votes| == |s.vals| && votes[k] == None && SetOf(net[i], m) == Tally(Cfg(s, m), votes)
    ensures NetRun(s, more) == Some(next) && ShapedNet(s, next)
    ensures var longer := votes[k := Some(VoteOf(s, sign, k, m, p.goals[i], p.t))];
      next == net[i := WithSet(net[i], m, Tally(Cfg(s, m), longer))]
  {
    hide SignBytes, ProposalBytes, Shaped, AddVote, Tally, GoodSetup, Heard, Keyed, ValidateBasic, Unforged, Weight,
         Stored, Signable;
    PossibleIsGood(s, sign, p);
    var v := VoteOf(s, sign, k, m, p.goals[i], p.t);
    VotePasses(s, sign, k, m, p.goals[i], p.t);
    VoteIsUnforged(s, sign, p, net, i, k, m);
    CfgIsGood(s, m);
    TallyStep(Cfg(s, m), votes, k, v);
    var e := ReceiveVote(i, v);
    Extend(s, events, net, e);
    next := NetStep(s, net, e);
    more := events + [e];
  }

  lemma {:induction false} Hears(s: Setup, sign: Signer, p: Plan, events: seq<Event>, net: Net, i: nat, m: Int32,
                                 k: nat)
    returns (more: seq<Event>, next: Net)
    requires Possible(s, sign, p) && NetRun(s, events) == Some(net) && ShapedNet(s, net) && AllSigned(s, p, net, m)
    requires IsVoteType(m) && i < |s.vals| && s.honest[i] && net[i].phase != Idle && |s.vals| <= 0x7FFF_FFFF
    requires SignBytes(s.crypto.times, s.chainID, m, p.goals[i], p.t).Some?
    requires SetOf(net[i], m) == NewState(Cfg(s, m)) && k <= |s.vals|
    ensures NetRun(s, more) == Some(next) && ShapedNet(s, next)
    ensures next == net[i := WithSet(net[i], m, Tally(Cfg(s, m), HeardVotes(s, sign, p, i, m, k)))]
  {
    hide SignBytes, Possible, ShapedNet, Tally, HeardVotes, NewState, AllSigned, GoodSetup, Run, NetRun;
    PossibleIsGood(s, sign, p);
    ShapedSize(s, net);
    if k == 0 {
      HearsNothing(s, sign, p, i, m);
      more, next := events, net;
    } else {
      more, next := Hears(s, sign, p, events, net, i, m, k - 1);
      more, next := HearsOneMore(s, sign, p, net, more, next, i, m, k - 1);
    }
  }

  lemma HearsNothing(s: Setup, sign: Signer, p: Plan, i: nat, m: Int32)
    requires Possible(s, sign, p) && i < |s.vals| <= 0x7FFF_FFFF
    requires SignBytes(s.crypto.times, s.chainID, m, p.goals[i], p.t).Some?
    ensures Tally(Cfg(s, m), HeardVotes(s, sign, p, i, m, 0)) == NewState(Cfg(s, m))
  {
    hide SignBytes, Possible, Tally, Heard, NewState, GoodSetup;
    PossibleIsGood(s, sign, p);
    CfgIsGood(s, m);
    EmptyTally(Cfg(s, m));
    assert HeardVotes(s, sign, p, i, m, 0) == NoVotes(|s.vals|);
  }

  /** The next validator's vote, if it is one of those heard. */
  lemma HearsOneMore(s: Setup, sign: Signer, p: Plan, net: Net, events: seq<Event>, mid: Net, i: nat, m: Int32, k: nat)
    returns (more: seq<Event>, next: Net)
    requires Possible(s, sign, p) && NetRun(s, events) == Some(mid) && ShapedNet(s, mid) && AllSigned(s, p, net, m)
    requires IsVoteType(m) && i < |s.vals| == |net| && s.honest[i] && net[i].phase != Idle && |s.vals| <= 0x7FFF_FFFF
    requires SignBytes(s.crypto.times, s.chainID, m, p.goals[i], p.t).Some? && k < |s.vals|
    requires mid == net[i := WithSet(net[i], m, Tally(Cfg(s, m), HeardVotes(s, sign, p, i, m, k)))]
    ensures NetRun(s, more) == Some(next) && ShapedNet(s, next)
    ensures next == net[i := WithSet(net[i], m, Tally(Cfg(s, m), HeardVotes(s, sign, p, i, m, k + 1)))]
  {
    hide SignBytes, Possible, ShapedNet, Tally, Heard, VoteOf, AllSigned, GoodSetup, NetRun;
    PossibleIsGood(s, sign, p);
    var before, votes := HeardVotes(s, sign, p, i, m, k), HeardVotes(s, sign, p, i, m, k + 1);
    if Heard(s, p, i)[k] {
      assert votes == before[k := Some(VoteOf(s, sign, k, m, p.goals[i], p.t))];
      SignedStays(s, p, net, mid, i, m);
      more, next := Delivers(s, sign, p, events, mid, i, k, m, before);
    } else {
      assert votes == before;
      more, next := events, mid;
    }
  }

  lemma ShapedSize(s: Setup, net: Net)
    requires ShapedNet(s, net)
    ensures |net| == |s.vals| == |s.honest|
  {
  }

  lemma SignedStays(s: Setup, p: Plan, net: Net, next: Net, i: nat, m: Int32)
    requires AllSigned(s, p, net, m) && i < |net| == |next| && next == net[i := next[i]]
    requires net[i].signed <= next[i].signed
    ensures AllSigned(s, p, next, m)
  {
    hide BytesOf;
  }

  /** All the votes heard make the majority the node is to return. */
  lemma HeardDecides(s: Setup, sign: Signer, p: Plan, i: nat, m: Int32)
    requires Possible(s, sign, p) && i < |s.vals| && s.honest[i] && |s.vals| <= 0x7FFF_FFFF
    requires SignBytes(s.crypto.times, s.chainID, m, p.goals[i], p.t).Some?
    ensures var st := Tally(Cfg(s, m), HeardVotes(s, sign, p, i, m, |s.vals|));
      st.maj23 == Some(p.goals[i]) && st.done
  {
    hide SignBytes, TotalPower, GoodSetup, Weight, Signable, VotedPower, Keyed;
    PossibleIsGood(s, sign, p);
    CfgIsGood(s, m);
    var cfg, votes, h := Cfg(s, m), HeardVotes(s, sign, p, i, m, |s.vals|), p.goals[i];
    assert Only(votes, h) == votes;
    assert Bits(votes) == Heard(s, p, i);
    VotedPowerIsWeight(cfg, votes);
    assert Quorate(cfg, votes, h);
    OneMajority(cfg, votes, h, Majority(cfg, votes).value);
  }

  // ---- the second stage: every honest node precommits

  ghost predicate AtPrecommit(s: Setup, p: Plan, node: Node, i: nat)
    requires i < |p.votes|
  {
    && node.phase == Precommitting(p.data, p.votes[i]) && node.precommits == NewState(Cfg(s, PRECOMMIT_TYPE))
    && Signable(s, p.votes[i], p.t)
    && BytesOf(s, PREVOTE_TYPE, p.votes[i], p.t) in node.signed
    && BytesOf(s, PRECOMMIT_TYPE, p.votes[i], p.t) in node.signed
  }

  lemma Precommits(s: Setup, sign: Signer, p: Plan, events: seq<Event>, net: Net, i: nat)
    returns (more: seq<Event>, next: Net)
    requires Possible(s, sign, p) && NetRun(s, events) == Some(net) && ShapedNet(s, net)
    requires AllSigned(s, p, net, PREVOTE_TYPE)
    requires i < |s.vals| && s.honest[i] && |p.votes| == |s.vals| && AtPrevote(s, p, net[i], i)
    ensures NetRun(s, more) == Some(next) && ShapedNet(s, next)
    ensures next == net[i := next[i]] && AtPrecommit(s, p, next[i], i) && net[i].signed <= next[i].signed
  {
    hide SignBytes, ProposalBytes, ShapedNode, AddVote, NewState, GoodSetup, Heard, Keyed, Tally, Weight, AllSigned,
         NetRun;
    PossibleIsGood(s, sign, p);
    assert Signable(s, p.goals[i], p.t);
    var front, mid := Hears(s, sign, p, events, net, i, PREVOTE_TYPE, |s.vals|);
    HeardDecides(s, sign, p, i, PREVOTE_TYPE);
    var e := Precommit(i, p.t);
    Extend(s, front, mid, e);
    next := NetStep(s, mid, e);
    more := front + [e];
  }

  lemma {:induction false} AllPrecommit(s: Setup, sign: Signer, p: Plan, k: nat) returns (events: seq<Event>, net: Net)
    requires Possible(s, sign, p) && k <= |s.vals| == |p.votes|
    ensures NetRun(s, events) == Some(net) && ShapedNet(s, net) && AllSigned(s, p, net, PREVOTE_TYPE)
    ensures forall i :: 0 <= i < k && s.honest[i] ==> AtPrecommit(s, p, net[i], i)
    ensures forall i :: k <= i < |s.vals| && s.honest[i] ==> AtPrevote(s, p, net[i], i)
  {
    hide Possible, AtPrevote, AtPrecommit, AllSigned, ShapedNet, NetRun, GoodSetup;
    PossibleIsGood(s, sign, p);
    if k == 0 {
      events, net := AllPrevote(s, sign, p, |s.vals|);
      ShapedSize(s, net);
      PrevotesAreSigned(s, p, net);
    } else {
      events, net := AllPrecommit(s, sign, p, k - 1);
      ShapedSize(s, net);
      if s.honest[k - 1] {
        var before := net;
        events, net := Precommits(s, sign, p, events, net, k - 1);
        SignedStays(s, p, before, net, k - 1, PREVOTE_TYPE);
      }
    }
  }

  lemma PrevotesAreSigned(s: Setup, p: Plan, net: Net)
    requires |net| == |s.honest| == |p.votes|
    requires forall i :: 0 <= i < |net| && s.honest[i] ==> AtPrevote(s, p, net[i], i)
    ensures AllSigned(s, p, net, PREVOTE_TYPE)
  {
    hide SignBytes, NewState;
  }

  lemma PrecommitsAreSigned(s: Setup, p: Plan, net: Net)
    requires |net| == |s.honest| == |p.votes|
    requires forall i :: 0 <= i < |net| && s.honest[i] ==> AtPrecommit(s, p, net[i], i)
    ensures AllSigned(s, p, net, PRECOMMIT_TYPE)
  {
    hide SignBytes, NewState;
  }

  // ---- the third stage: every honest node returns

  ghost predicate AtReturn(p: Plan, node: Node, i: nat)
    requires i < |p.goals|
  {
    node.phase.Returned? && node.phase.data == p.data && node.phase.commit.dataHash == p.goals[i]
  }

  lemma Returns(s: Setup, sign: Signer, p: Plan, events: seq<Event>, net: Net, i: nat)
    returns (more: seq<Event>, next: Net)
    requires Possible(s, sign, p) && NetRun(s, events) == Some(net) && ShapedNet(s, net)
    requires AllSigned(s, p, net, PRECOMMIT_TYPE)
    requires i < |s.vals| && s.honest[i] && |p.votes| == |p.goals| == |s.vals| && AtPrecommit(s, p, net[i], i)
    ensures NetRun(s, more) == Some(next) && ShapedNet(s, next)
    ensures next == net[i := next[i]] && AtReturn(p, next[i], i) && net[i].signed <= next[i].signed
  {
    hide SignBytes, ProposalBytes, ShapedNode, AddVote, NewState, GoodSetup, Heard, Keyed, Tally, Weight, AllSigned,
         NetRun,
         NetInv, NodeInv, MakeCommit, HeardVotes;
    PossibleIsGood(s, sign, p);
    assert Signable(s, p.goals[i], p.t);
    var front, mid := Hears(s, sign, p, events, net, i, PRECOMMIT_TYPE, |s.vals|);
    HeardDecides(s, sign, p, i, PRECOMMIT_TYPE);
    var e := Return(i);
    Extend(s, front, mid, e);
    NetRunInv(s, front);
    ReturnStep(s, mid, e);
    CommitIsForMajority(Cfg(s, PRECOMMIT_TYPE), mid[i].precommits);
    next := NetStep(s, mid, e);
    more := front + [e];
  }

  lemma {:induction false} AllReturn(s: Setup, sign: Signer, p: Plan, k: nat) returns (events: seq<Event>, net: Net)
    requires Possible(s, sign, p) && k <= |s.vals| == |p.votes| == |p.goals|
    ensures NetRun(s, events) == Some(net) && ShapedNet(s, net) && AllSigned(s, p, net, PRECOMMIT_TYPE)
    ensures forall i :: 0 <= i < k && s.honest[i] ==> AtReturn(p, net[i], i)
    ensures forall i :: k <= i < |s.vals| && s.honest[i] ==> AtPrecommit(s, p, net[i], i)
  {
    hide Possible, AtPrecommit, AtReturn, AllSigned, ShapedNet, NetRun, GoodSetup;
    PossibleIsGood(s, sign, p);
    if k == 0 {
      events, net := AllPrecommit(s, sign, p, |s.vals|);
      ShapedSize(s, net);
      PrecommitsAreSigned(s, p, net);
    } else {
      events, net := AllReturn(s, sign, p, k - 1);
      ShapedSize(s, net);
      if s.honest[k - 1] {
        var before := net;
        events, net := Returns(s, sign, p, events, net, k - 1);
        SignedStays(s, p, before, net, k - 1, PRECOMMIT_TYPE);
      }
    }
  }

  /**
   * Every plan can be carried out: if each honest node can hear, for the hash it is to return, honest votes for it and
   * votes of others with over two thirds of the power, some run lets every honest node return that hash.
   */
  lemma EveryPlanRuns(s: Setup, sign: Signer, p: Plan) returns (events: seq<Event>)
    requires Possible(s, sign, p)
    ensures |p.goals| == |s.vals| == |s.honest| && GoodSetup(s) && NetRun(s, events).Some?
    ensures forall i :: 0 <= i < |s.vals| && s.honest[i] ==> AtReturn(p, NetRun(s, events).value[i], i)
  {
    hide Possible, NetRun;
    PossibleIsGood(s, sign, p);
    var net;
    events, net := AllReturn(s, sign, p, |s.vals|);
  }

  /** The protocol can complete: with over two thirds honest, some run lets every honest node return the common hash. */
  lemma HonestNodesReturn(s: Setup, sign: Signer, data: ByteString, h: Hash, t: Time) returns (events: seq<Event>)
    requires GoodSetup(s) && Keyed(s, sign) && Signable(s, h, t)
    requires ProposalBytes(s.crypto.times, s.chainID, data, t).Some?
    requires 3 * Weight(s.vals, Faulty(s)) < TotalPower(s.vals)
    ensures NetRun(s, events).Some?
    ensures forall i :: 0 <= i < |s.vals| && s.honest[i] ==>
              var phase := NetRun(s, events).value[i].phase;
              phase.Returned? && phase.data == data && phase.commit.dataHash == h
  {
    hide SignBytes, ProposalBytes, TotalPower, Weight, TimesRoundTrip, Keyed, NetRun, Signable;
    var all := seq(|s.vals|, i => h);
    var p := Plan(data, t, all, all);
    HonestWeight(s);
    forall i | 0 <= i < |s.vals| && s.honest[i] ensures Weight(s.vals, Heard(s, p, i)) > TotalPower(s.vals) * 2 / 3 {
      WeightMonotone(s.vals, s.honest, Heard(s, p, i));
    }
    events := EveryPlanRuns(s, sign, p);
    forall i | 0 <= i < |s.vals| && s.honest[i] ensures AtReturn(p, NetRun(s, events).value[i], i) {
    }
  }
}
