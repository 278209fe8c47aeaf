/** Exactly when two honest nodes can return commits for different hashes. */
module Disagreement {
  import opened Int64
  import opened Options
  import opened Bytes
  import opened Sums
  import opened Proposers
  import opened Quorums
  import opened Varints
  import opened Canonical
  import opened Votes
  import opened Proposals
  import opened VoteSets
  import opened VoteSetInvariant
  import opened VoteOrigins
  import opened Agreement
  import opened AgreementRuns
  import opened Signals
  import Certificates

  /** After the run two honest nodes have returned commits for different hashes. */
  ghost predicate Disagrees(s: Setup, events: seq<Event>, i: nat, j: nat)
    requires GoodSetup(s)
  {
    && NetRun(s, events).Some? && i < |s.vals| && j < |s.vals|
    && var net := NetRun(s, events).value;
    && net[i].phase.Returned? && net[j].phase.Returned?
    && net[i].phase.commit.dataHash != net[j].phase.commit.dataHash
  }

  /** The faulty validators together with the chosen honest ones. */
  function Side(s: Setup, pick: seq<bool>): (r: seq<bool>)
    requires |pick| == |s.honest|
    ensures |r| == |s.honest|
  {
    seq(|s.honest|, k requires 0 <= k < |s.honest| => !s.honest[k] || pick[k])
  }

  function Others(pick: seq<bool>): (r: seq<bool>)
    ensures |r| == |pick|
  {
    seq(|pick|, k requires 0 <= k < |pick| => !pick[k])
  }

  /** The choice divides the honest validators so that either part and the faulty ones pass two thirds. */
  ghost predicate Divides(s: Setup, pick: seq<bool>) {
    && |pick| == |s.honest| == |s.vals|
    && Weight(s.vals, Side(s, pick)) > TotalPower(s.vals) * 2 / 3
    && Weight(s.vals, Side(s, Others(pick))) > TotalPower(s.vals) * 2 / 3
  }

  ghost predicate TwoHonest(s: Setup, i: nat, j: nat) {
    i < |s.honest| && j < |s.honest| && i != j && s.honest[i] && s.honest[j]
  }

  // ---- a disagreement divides the honest validators

  /** Only honest nodes take steps. */
  lemma {:induction false} OnlyHonestMove(s: Setup, events: seq<Event>, i: nat)
    requires GoodSetup(s) && NetRun(s, events).Some? && i < |s.vals| && NetRun(s, events).value[i].phase != Idle
    ensures |s.honest| == |s.vals| && s.honest[i]
  {
    hide GoodSetup, Ready, NodeAfter, NewState;
    if |events| > 0 {
      var n := |events| - 1;
      if events[n].node != i {
        OnlyHonestMove(s, events[..n], i);
      }
    }
  }

  /** The honest validators that voted for the hash. */
  ghost function VotedFor(s: Setup, net: Net, h: Hash): (r: seq<bool>)
    requires |net| == |s.honest|
    ensures |r| == |s.honest|
  {
    seq(|s.honest|, k requires 0 <= k < |s.honest| => net[k].voted == Some(h))
  }

  /** The voters of a node's majority are faulty or voted for it. */
  lemma VotersAreOnSide(s: Setup, net: Net, i: nat, h: Hash, pick: seq<bool>)
    requires GoodSetup(s) && NetInv(s, net) && i < |net| && net[i].precommits.maj23 == Some(h)
    requires |pick| == |s.honest| && forall k :: 0 <= k < |net| && s.honest[k] && net[k].voted == Some(h) ==> pick[k]
    ensures Weight(s.vals, Side(s, pick)) > TotalPower(s.vals) * 2 / 3
  {
    hide TotalPower, Weight, Holds, Faithful, SignedInv, PhaseInv, Inv, TimesRoundTrip;
    assert NodeInv(s, net[i]);
    var voters := MajorityVoters(s, PRECOMMIT_TYPE, net[i].precommits);
    forall k | 0 <= k < |voters| && voters[k] ensures Side(s, pick)[k] {
      if s.honest[k] { HonestVoter(s, net, i, k, voters); }
    }
    WeightMonotone(s.vals, voters, Side(s, pick));
  }

  lemma DisagreementDivides(s: Setup, events: seq<Event>, i: nat, j: nat) returns (pick: seq<bool>)
    requires GoodSetup(s) && Disagrees(s, events, i, j)
    ensures TwoHonest(s, i, j) && Divides(s, pick)
  {
    hide TotalPower, Weight, Faithful, SignedInv, SetInv, TimesRoundTrip, NetRun;
    NetRunInv(s, events);
    OnlyHonestMove(s, events, i);
    OnlyHonestMove(s, events, j);
    var net := NetRun(s, events).value;
    assert NodeInv(s, net[i]) && NodeInv(s, net[j]);
    var h, h' := net[i].phase.commit.dataHash, net[j].phase.commit.dataHash;
    pick := VotedFor(s, net, h);
    VotersAreOnSide(s, net, i, h, pick);
    VotersAreOnSide(s, net, j, h', Others(pick));
  }

  // ---- a division is a disagreement

  /**
   * The chosen validate one hash, the others the other; node `i` is to return the first, all other nodes the second.
   */
  function Split(s: Setup, pick: seq<bool>, i: nat, data: ByteString, t: Time, h: Hash, h': Hash): Plan
    requires |pick| == |s.vals|
  {
    Plan(data, t, seq(|s.vals|, k requires 0 <= k < |s.vals| => if pick[k] then h else h'),
         seq(|s.vals|, k => if k == i then h else h'))
  }

  lemma DivisionDisagrees(s: Setup, sign: Signer, pick: seq<bool>, i: nat, j: nat,
                          data: ByteString, t: Time, h: Hash, h': Hash) returns (events: seq<Event>)
    requires GoodSetup(s) && Keyed(s, sign) && Signable(s, h, t) && Signable(s, h', t) && h != h'
    requires ProposalBytes(s.crypto.times, s.chainID, data, t).Some?
    requires TwoHonest(s, i, j) && Divides(s, pick)
    ensures Disagrees(s, events, i, j)
  {
    hide SignBytes, ProposalBytes, TotalPower, Weight, TimesRoundTrip, Keyed, NetRun, Signable;
    var p := Split(s, pick, i, data, t, h, h');
    forall k | 0 <= k < |s.vals| ensures Heard(s, p, k) == if k == i then Side(s, pick) else Side(s, Others(pick)) {
    }
    events := EveryPlanRuns(s, sign, p);
    assert AtReturn(p, NetRun(s, events).value[i], i) && AtReturn(p, NetRun(s, events).value[j], j);
  }

  /**
   * The exact condition of disagreement, for every setup in which validators can sign: two honest nodes can return
   * commits for different hashes if and only if there are two honest validators and the honest ones can be divided so
   * that the faulty ones complete a quorum on either side.
   */
  lemma DisagreementExactly(s: Setup, sign: Signer, data: ByteString, t: Time, h: Hash, h': Hash)
    requires GoodSetup(s) && Keyed(s, sign) && Signable(s, h, t) && Signable(s, h', t) && h != h'
    requires ProposalBytes(s.crypto.times, s.chainID, data, t).Some?
    ensures (exists events, i, j :: Disagrees(s, events, i, j))
            <==> (exists i, j :: TwoHonest(s, i, j)) && exists pick :: Divides(s, pick)
  {
    hide GoodSetup, Keyed, Signable, Disagrees, TwoHonest, Divides, ProposalBytes;
    if events, i, j :| Disagrees(s, events, i, j) {
      var pick := DisagreementDivides(s, events, i, j);
    }
    if (exists i, j :: TwoHonest(s, i, j)) && exists pick :: Divides(s, pick) {
      var i, j :| TwoHonest(s, i, j);
      var pick :| Divides(s, pick);
      var events := DivisionDisagrees(s, sign, pick, i, j, data, t, h, h');
    }
  }

  // ---- one third

  /** A division needs more than a third of the power to be faulty. */
  lemma DivisionNeedsAThird(s: Setup, pick: seq<bool>)
    requires GoodSetup(s) && Divides(s, pick)
    ensures 3 * Weight(s.vals, Faulty(s)) > TotalPower(s.vals)
  {
    hide TotalPower, Weight, TimesRoundTrip;
    var a, b := Side(s, pick), Side(s, Others(pick));
    QuorumOverlap(s.vals, a, b);
    WeightMonotone(s.vals, Both(a, b), Faulty(s));
  }

  /** The honest validators that are chosen. */
  function Chosen(s: Setup, pick: seq<bool>): (r: seq<bool>)
    requires |pick| == |s.honest|
    ensures |r| == |s.honest|
  {
    seq(|s.honest|, k requires 0 <= k < |s.honest| => s.honest[k] && pick[k])
  }

  lemma SideWeight(s: Setup, pick: seq<bool>)
    requires |pick| == |s.honest| == |s.vals|
    ensures Weight(s.vals, Side(s, pick)) == Weight(s.vals, Faulty(s)) + Weight(s.vals, Chosen(s, pick))
    ensures Weight(s.vals, Faulty(s)) + Weight(s.vals, Chosen(s, pick)) + Weight(s.vals, Chosen(s, Others(pick)))
            == TotalPower(s.vals)
  {
    var f, c := Weights(s.vals, Faulty(s)), Weights(s.vals, Chosen(s, pick));
    var d := Weights(s.vals, Chosen(s, Others(pick)));
    SumLinear(f, c, 0, Weights(s.vals, Side(s, pick)));
    SumLinear(Weights(s.vals, Side(s, pick)), d, 0, Powers(s.vals));
  }

  /** Where the honest power can be halved, one third is the exact bound. */
  lemma HalvesDivideExactly(s: Setup, pick: seq<bool>)
    requires GoodSetup(s) && |pick| == |s.vals|
    requires Weight(s.vals, Chosen(s, pick)) == Weight(s.vals, Chosen(s, Others(pick)))
    ensures Divides(s, pick) <==> 3 * Weight(s.vals, Faulty(s)) > TotalPower(s.vals)
  {
    hide TotalPower, Weight, TimesRoundTrip;
    SideWeight(s, pick);
    SideWeight(s, Others(pick));
    assert Others(Others(pick)) == pick;
  }

  /** So for two honest halves agreement holds in all runs if and only if at most a third of the power is faulty. */
  lemma OneThirdExactly(s: Setup, sign: Signer, pick: seq<bool>, i: nat, j: nat, data: ByteString, t: Time, h: Hash,
                        h': Hash)
    requires GoodSetup(s) && Keyed(s, sign) && Signable(s, h, t) && Signable(s, h', t) && h != h'
    requires ProposalBytes(s.crypto.times, s.chainID, data, t).Some?
    requires TwoHonest(s, i, j) && |pick| == |s.vals|
    requires Weight(s.vals, Chosen(s, pick)) == Weight(s.vals, Chosen(s, Others(pick)))
    ensures (exists events, k, l :: Disagrees(s, events, k, l)) <==> 3 * Weight(s.vals, Faulty(s)) > TotalPower(s.vals)
  {
    hide GoodSetup, Keyed, Signable, Disagrees, TwoHonest, Divides, ProposalBytes, TotalPower, Weight;
    DisagreementExactly(s, sign, data, t, h, h');
    HalvesDivideExactly(s, pick);
    if some :| Divides(s, some) { DivisionNeedsAThird(s, some); }
  }

  // ---- an input that does it

  /** Keys that accept only their own mark. */
  const MARKED: Crypto := Crypto(
    (pk: PubKey, m: ByteString, sig: Signature) => sig == pk,
    (pk: PubKey) => seq(20, i => if |pk| > 0 then pk[0] else 0),
    ONE_INSTANT)

  function Member(mark: Byte, power: Int64): Proposer { Proposer(seq(20, i => mark), [mark], power, 0) }

  /** Two honest validators of power `w` and a faulty proposer of power `f`. */
  function Trio(w: Int64, f: Int64): Setup {
    Setup([], [Member(1, w), Member(2, w), Member(3, f)], 2, MARKED, [true, true, false])
  }

  function Mark(k: nat, bytes: ByteString): Signature { if k < 3 then [k + 1] else [] }

  lemma SumOfThree(p: seq<int>)
    requires |p| == 3
    ensures Sum(p) == p[0] + p[1] + p[2]
  {
    assert p == [p[0], p[1], p[2]];
    SumAppend([], p[0]);
    SumAppend([p[0]], p[1]);
    SumAppend([p[0], p[1]], p[2]);
    assert [] + [p[0]] == [p[0]] && [p[0]] + [p[1]] == [p[0], p[1]] && [p[0], p[1]] + [p[2]] == p;
  }

  lemma TrioIsGood(w: Int64, f: Int64)
    requires 0 <= w && 0 <= f && 2 * w + f <= MAX_TOTAL_VOTING_POWER
    ensures GoodSetup(Trio(w, f)) && TotalPower(Trio(w, f).vals) == 2 * w + f
  {
    hide Member, MARKED;
    MemberPower(1, w);
    MemberPower(2, w);
    MemberPower(3, f);
    SumOfThree(Powers(Trio(w, f).vals));
    InstantRoundTrips();
  }

  lemma TrioHalves(w: Int64, f: Int64)
    ensures Weight(Trio(w, f).vals, Faulty(Trio(w, f))) == f
    ensures Weight(Trio(w, f).vals, Chosen(Trio(w, f), [true, false, false]))
            == Weight(Trio(w, f).vals, Chosen(Trio(w, f), Others([true, false, false])))
  {
    hide Weight, Member;
    var s, pick := Trio(w, f), [true, false, false];
    TrioWeight(w, f, Faulty(s));
    TrioWeight(w, f, Chosen(s, pick));
    TrioWeight(w, f, Chosen(s, Others(pick)));
  }

  lemma MemberPower(mark: Byte, power: Int64)
    ensures Member(mark, power).votingPower == power
  {
  }

  lemma InstantRoundTrips()
    ensures TimesRoundTrip(MARKED.times)
  {
  }

  lemma TrioWeight(w: Int64, f: Int64, pick: seq<bool>)
    requires |pick| == 3
    ensures Weight(Trio(w, f).vals, pick)
            == (if pick[0] then w else 0) + (if pick[1] then w else 0) + if pick[2] then f else 0
  {
    hide MARKED;
    SumOfThree(Weights(Trio(w, f).vals, pick));
  }

  lemma TrioIsKeyed(w: Int64, f: Int64)
    ensures Keyed(Trio(w, f), Mark)
  {
    var s := Trio(w, f);
    forall k | 0 <= k < 3 ensures KeyedAt(s, Mark, k) {
      assert s.vals[k].pubKey == [k + 1];
    }
  }

  lemma BallotEncodes(w: Int64, f: Int64, h: Hash)
    requires ValidHash(h)
    ensures Signable(Trio(w, f), h, ZERO_TIME)
  {
    hide EncodeVote, Delimited;
    SmallEncoding(CanonicalVote(PREVOTE_TYPE, 0, 0, CanonicalizeHash(h).value, ZERO_TIME, []));
    SmallEncoding(CanonicalVote(PRECOMMIT_TYPE, 0, 0, CanonicalizeHash(h).value, ZERO_TIME, []));
  }

  lemma EmptyProposalEncodes()
    ensures ProposalBytes(ONE_INSTANT, [], [], ZERO_TIME).Some?
  {
    var bytes := EncodeProposal(ONE_INSTANT, None, ZERO_TIME, []).value;
    assert |EncodeVarint(ToUint64(PROPOSAL_TYPE))| == 1;
    assert |EncodeVarint(|bytes|)| == 1;
  }

  /** A family of precise setups: powers w, w, f with f faulty can disagree exactly if f > w, which is 3f > 2w + f. */
  lemma TrioExactly(w: Int64, f: Int64)
    requires 0 <= w && 0 <= f && 2 * w + f <= MAX_TOTAL_VOTING_POWER
    ensures GoodSetup(Trio(w, f))
    ensures (exists events, i, j :: Disagrees(Trio(w, f), events, i, j)) <==> f > w
  {
    hide GoodSetup, Keyed, Signable, Disagrees, ProposalBytes, TotalPower, Weight, Chosen;
    var s := Trio(w, f);
    TrioIsGood(w, f);
    TrioHalves(w, f);
    TrioIsKeyed(w, f);
    BallotEncodes(w, f, []);
    BallotEncodes(w, f, SOME_HASH);
    EmptyProposalEncodes();
    OneThirdExactly(s, Mark, [true, false, false], 0, 1, [], ZERO_TIME, [], SOME_HASH);
  }

  /** Nodes can agree on nil, and then what they return is no certificate: a precise setup and run. */
  lemma NilCommitReturned() returns (events: seq<Event>)
    ensures GoodSetup(Trio(1, 0)) && NetRun(Trio(1, 0), events).Some? && |Trio(1, 0).vals| == 3
    ensures var s, phase := Trio(1, 0), NetRun(Trio(1, 0), events).value[0].phase;
      && phase.Returned? && phase.commit.dataHash == []
      && !Certificates.Certifies(s.crypto, s.chainID, s.vals, [], phase.commit)
  {
    hide GoodSetup, Keyed, Signable, ProposalBytes, TotalPower, Weight, Chosen, NetRun, Certificates.Certifies;
    var s := Trio(1, 0);
    TrioIsGood(1, 0);
    TrioHalves(1, 0);
    TrioIsKeyed(1, 0);
    BallotEncodes(1, 0, []);
    EmptyProposalEncodes();
    events := HonestNodesReturn(s, Mark, [], [], ZERO_TIME);
    ReturnedCommitCertifies(s, events, 0);
  }
}
