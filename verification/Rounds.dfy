/** A node's mutable round and the blocking steps of AgreeOn, each proved to be a step of the agreement. */
module Rounds {
  import opened Bytes
  import opened Options
  import opened Proposers
  import opened Varints
  import opened Canonical
  import opened Votes
  import opened Proposals
  import opened VoteSets
  import Commits
  import opened Agreement
  import opened VoteSetObjects

  datatype ProposalReply = Delivered | BadProposal | Blocked | Crashed

  datatype SignedProposal = SignedProposal(data: ByteString, timestamp: Time, signature: Signature)

  class Round {
    const setup: Setup
    const selfIndex: nat
    const prevotes: VoteSet
    const precommits: VoteSet
    var phase: Phase
    var propCh: Option<ByteString>
    ghost var voted: Option<Hash>
    ghost var signed: set<ByteString>

    /** The two vote sets are of the two types and share nothing. */
    ghost predicate SetsValid()
      reads prevotes, precommits, prevotes.votesByBlock.Values, precommits.votesByBlock.Values
    {
      && prevotes != precommits && prevotes.votesByBlock.Values !! precommits.votesByBlock.Values
      && prevotes.config == Cfg(setup, PREVOTE_TYPE) && precommits.config == Cfg(setup, PRECOMMIT_TYPE)
      && prevotes.Valid() && precommits.Valid()
    }

    ghost predicate Valid()
      reads this, prevotes, precommits, prevotes.votesByBlock.Values, precommits.votesByBlock.Values
    {
      && selfIndex < |setup.vals| <= 0x7FFF_FFFF && setup.proposer < |setup.vals|
      && SelfIndex(setup.vals, PublicKey()) == selfIndex
      && (phase.Prevoting? ==> voted == Some(phase.hash))
      && SetsValid()
    }

    ghost function Value(): Node
      reads this, prevotes, precommits, prevotes.votesByBlock.Values, precommits.votesByBlock.Values
    {
      Node(phase, propCh, prevotes.Snapshot(), precommits.Snapshot(), voted, signed)
    }

    function PublicKey(): PubKey
    {
      if selfIndex < |setup.vals| then setup.vals[selfIndex].pubKey else []
    }

    predicate IsProposer()
      requires setup.proposer < |setup.vals|
    {
      setup.vals[setup.proposer].address == setup.crypto.addressOf(PublicKey())
    }

    /** newRound for the index that AgreeOn found under the node's own key. */
    constructor (setup: Setup, selfPK: PubKey)
      requires setup.proposer < |setup.vals| <= 0x7FFF_FFFF && SelfIndex(setup.vals, selfPK) >= 0
      ensures Valid() && this.setup == setup && selfIndex == SelfIndex(setup.vals, selfPK)
      ensures Value() == NewNode(setup)
    {
      var index := FindSelf(setup.vals, selfPK);
      this.setup := setup;
      this.selfIndex := index;
      this.prevotes := new VoteSet(Cfg(setup, PREVOTE_TYPE));
      this.precommits := new VoteSet(Cfg(setup, PRECOMMIT_TYPE));
      this.phase := Idle;
      this.propCh := None;
      this.voted := None;
      this.signed := {};
    }

    /** The part of Propose before the wait; `signature` is the signer's answer, none on its error. */
    method Propose(data: ByteString, t: Time, signature: Option<Signature>) returns (published: Option<SignedProposal>)
      requires Valid() && phase == Idle
      modifies this
      ensures Valid()
      ensures Ready(setup, old(Value()), Event.Start(selfIndex, data, t))
      ensures Value() == if IsProposer() && signature == None then old(Value()).(phase := Failed)
                         else NodeAfter(setup, old(Value()), Event.Start(selfIndex, data, t))
      ensures published.Some? <==>
        && setup.vals[setup.proposer].address == setup.crypto.addressOf(setup.vals[selfIndex].pubKey)
        && signature.Some? && ProposalBytes(setup.crypto.times, setup.chainID, data, t).Some?
      ensures published.Some? ==>
        && published.value == SignedProposal(data, t, signature.value)
        && ProposalBytes(setup.crypto.times, setup.chainID, data, t).value in signed
    {
      hide Ready, NodeAfter, ProposalBytes, ShapedNode, SelfIndex, SetsValid;
      ghost var before := Value();
      ShapedValue();
      StartUnfolds(setup, before, selfIndex, data, t);
      if IsProposer() {
        published := SignProposal(data, t, signature);
        phase := if published.Some? then Proposing else Failed;
        signed := if published.Some?
          then signed + {ProposalBytes(setup.crypto.times, setup.chainID, data, t).value}
          else signed;
      } else {
        published := None;
        phase := Proposing;
      }
      assert SetsValid() && prevotes.Snapshot() == before.prevotes && precommits.Snapshot() == before.precommits;
    }

    lemma ShapedValue()
      requires Valid()
      ensures ShapedNode(setup, Value())
    {
      hide Shaped;
    }

    /** Malformed data panics in the signer; its error ends AgreeOn. */
    method SignProposal(data: ByteString, t: Time, signature: Option<Signature>)
      returns (proposal: Option<SignedProposal>)
      ensures proposal.Some? <==> ProposalBytes(setup.crypto.times, setup.chainID, data, t).Some? && signature.Some?
      ensures proposal.Some? ==> proposal.value == SignedProposal(data, t, signature.value)
    {
      if ProposalBytes(setup.crypto.times, setup.chainID, data, t).None? || signature.None? {
        return None;
      }
      return Some(SignedProposal(data, t, signature.value));
    }

    method RcvProposal(proposal: SignedProposal) returns (reply: ProposalReply)
      requires Valid() && phase != Idle
      modifies this
      ensures Valid()
      ensures var e := ReceiveProposal(selfIndex, proposal.data, proposal.timestamp, proposal.signature);
        if reply == Delivered then Ready(setup, old(Value()), e) && Value() == NodeAfter(setup, old(Value()), e)
        else !Ready(setup, old(Value()), e)
             && Value() == if reply == Crashed then old(Value()).(phase := Failed) else old(Value())
      ensures var bytes := ProposalBytes(setup.crypto.times, setup.chainID, proposal.data, proposal.timestamp);
        var key := setup.vals[setup.proposer].pubKey;
        && (reply == Crashed <==> bytes.None?)
        && (reply == BadProposal <==> bytes.Some? && !setup.crypto.verify(key, bytes.value, proposal.signature))
        && (reply == Delivered ==> old(propCh) == None && propCh == Some(proposal.data))
        && (reply == Blocked ==> old(propCh).Some?)
    {
      hide VoteSets.AddVote, Commits.MakeCommit, SignBytes, ProposalBytes, Shaped, SelfIndex;
      var bytes := ProposalBytes(setup.crypto.times, setup.chainID, proposal.data, proposal.timestamp);
      if bytes.None? {
        phase := Failed;
        return Crashed;
      }
      if !setup.crypto.verify(setup.vals[setup.proposer].pubKey, bytes.value, proposal.signature) {
        return BadProposal;
      }
      if propCh.Some? {
        return Blocked;
      }
      propCh := Some(proposal.data);
      return Delivered;
    }

    /** A vote under the node's own index and address. */
    function OwnVote(msgType: Int32, hash: Hash, t: Time, signature: Signature): Votes.Vote
      requires selfIndex <= 0x7FFF_FFFF
    {
      Votes.Vote(msgType, hash, t, setup.crypto.addressOf(PublicKey()), selfIndex, signature)
    }

    /** Builds and signs the vote; a malformed hash panics in the signer and its error ends AgreeOn. */
    method SignVote(hash: Hash, msgType: Int32, t: Time, signature: Option<Signature>)
      returns (vote: Option<Votes.Vote>)
      requires Valid()
      ensures vote.Some? <==> SignBytes(setup.crypto.times, setup.chainID, msgType, hash, t).Some? && signature.Some?
      ensures vote.Some? ==>
        vote.value == OwnVote(msgType, hash, t, signature.value)
    {
      hide VoteSets.AddVote, Commits.MakeCommit, SignBytes, ProposalBytes, Shaped, SelfIndex;
      if SignBytes(setup.crypto.times, setup.chainID, msgType, hash, t).None? || signature.None? {
        return None;
      }
      return Some(OwnVote(msgType, hash, t, signature.value));
    }

    /** A step that votes: the phase, the inbox and the signed bytes. */
    method Vote(next: Phase, inbox: Option<ByteString>, hash: Hash, msgType: Int32, t: Time,
                signature: Option<Signature>)
      returns (vote: Option<Votes.Vote>)
      requires Valid() && (next.Prevoting? ==> next.hash == hash)
      modifies this
      ensures Valid()
      ensures vote.Some? <==> signature.Some? && SignBytes(setup.crypto.times, setup.chainID, msgType, hash, t).Some?
      ensures vote.None? ==> phase == Failed && propCh == old(propCh) && voted == old(voted) && signed == old(signed)
      ensures vote.Some? ==>
        && phase == next && propCh == inbox && voted == Some(hash)
        && signature.Some? && vote.value == OwnVote(msgType, hash, t, signature.value)
        && SignBytes(setup.crypto.times, setup.chainID, msgType, hash, t).Some?
        && VoteBytes(setup.crypto, setup.chainID, vote.value)
           == SignBytes(setup.crypto.times, setup.chainID, msgType, hash, t)
        && signed == old(signed) + {SignBytes(setup.crypto.times, setup.chainID, msgType, hash, t).value}
    {
      hide SignBytes, Shaped, SelfIndex, NewState, SetsValid;
      vote := SignVote(hash, msgType, t, signature);
      if vote.None? {
        phase := Failed;
        return;
      }
      phase, propCh, voted := next, inbox, Some(hash);
      signed := signed + {SignBytes(setup.crypto.times, setup.chainID, msgType, hash, t).value};
    }

    /** From the end of Propose to the prevote: `hash` is what validate answered for the proposal taken. */
    method VotePrevote(hash: Hash, t: Time, signature: Option<Signature>) returns (vote: Option<Votes.Vote>)
      requires Valid() && phase == Proposing && propCh.Some?
      modifies this
      ensures Valid()
      ensures vote.Some? <==>
        signature.Some? && SignBytes(setup.crypto.times, setup.chainID, PREVOTE_TYPE, hash, t).Some?
      ensures vote.Some? ==>
        && vote.value == Votes.Vote(PREVOTE_TYPE, hash, t, setup.crypto.addressOf(setup.vals[selfIndex].pubKey),
                                    selfIndex, signature.value)
        && phase == Prevoting(old(propCh).value, hash) && propCh == None
      ensures var e := Prevote(selfIndex, hash, t);
        if vote.Some? then
          && Ready(setup, old(Value()), e) && Value() == NodeAfter(setup, old(Value()), e)
          && VoteBytes(setup.crypto, setup.chainID, vote.value).Some?
          && VoteBytes(setup.crypto, setup.chainID, vote.value).value in signed
        else Value() == NodeAfter(setup, old(Value()), Fail(selfIndex))
    {
      hide VoteSets.AddVote, Commits.MakeCommit, SignBytes, ProposalBytes, Shaped, SelfIndex;
      vote := Vote(Prevoting(propCh.value, hash), None, hash, PREVOTE_TYPE, t, signature);
    }

    /** Past the wait for the prevotes: the precommit, for the node's own hash. */
    method VotePrecommit(t: Time, signature: Option<Signature>) returns (vote: Option<Votes.Vote>)
      requires Valid() && phase.Prevoting? && prevotes.done
      modifies this
      ensures Valid()
      ensures vote.Some? <==>
        signature.Some? && SignBytes(setup.crypto.times, setup.chainID, PRECOMMIT_TYPE, old(phase.hash), t).Some?
      ensures vote.Some? ==>
        && vote.value == Votes.Vote(PRECOMMIT_TYPE, old(phase.hash), t,
                                    setup.crypto.addressOf(setup.vals[selfIndex].pubKey), selfIndex, signature.value)
        && phase == Precommitting(old(phase.data), old(phase.hash)) && propCh == old(propCh)
      ensures var e := Precommit(selfIndex, t);
        if vote.Some? then
          && Ready(setup, old(Value()), e) && Value() == NodeAfter(setup, old(Value()), e)
          && VoteBytes(setup.crypto, setup.chainID, vote.value).Some?
          && VoteBytes(setup.crypto, setup.chainID, vote.value).value in signed
        else Value() == NodeAfter(setup, old(Value()), Fail(selfIndex))
    {
      hide VoteSets.AddVote, Commits.MakeCommit, SignBytes, ProposalBytes, Shaped, SelfIndex;
      vote := Vote(Precommitting(phase.data, phase.hash), propCh, phase.hash, PRECOMMIT_TYPE, t, signature);
    }

    /** Past the wait for the precommits. */
    method Finish()
      requires Valid() && phase.Precommitting? && precommits.done
      modifies this
      ensures Valid()
      ensures var e := Return(selfIndex);
        Ready(setup, old(Value()), e) && Value() == NodeAfter(setup, old(Value()), e)
    {
      hide Ready, NodeAfter, ShapedNode, SelfIndex, SetsValid, Commits.MakeCommit;
      ghost var before := Value();
      ShapedValue();
      ReturnUnfolds(setup, before, selfIndex);
      var commit := CommitOfPrecommits();
      if commit.None? {
        phase := Failed;
      } else {
        phase := Returned(phase.data, phase.hash, commit.value);
      }
    }

    method CommitOfPrecommits() returns (commit: Option<Commit>)
      requires Valid()
      ensures commit == Commits.MakeCommit(Cfg(setup, PRECOMMIT_TYPE), Value().precommits)
    {
      hide Commits.MakeCommit, Shaped, SelfIndex;
      commit := precommits.MakeCommit();
    }

    /** rcvVote of a message that passed the checks of handle. */
    method RcvVote(vote: Votes.Vote) returns (result: AddResult)
      requires Valid() && phase != Idle && ValidateBasic(vote)
      modifies prevotes, precommits, prevotes.votesByBlock.Values, precommits.votesByBlock.Values
      ensures Valid()
      ensures var e := ReceiveVote(selfIndex, vote);
        Ready(setup, old(Value()), e) && Value() == NodeAfter(setup, old(Value()), e)
      ensures var (own, other) := if vote.msgType == PREVOTE_TYPE then (prevotes, precommits)
                                  else (precommits, prevotes);
        && (own.Snapshot(), result) == VoteSets.AddVote(own.config, old(own.Snapshot()), Some(vote))
        && other.Snapshot() == old(other.Snapshot()) && phase == old(phase) && propCh == old(propCh)
    {
      hide VoteSets.AddVote, Commits.MakeCommit, SignBytes, ProposalBytes, Shaped, SelfIndex;
      if vote.msgType == PREVOTE_TYPE {
        result := prevotes.AddVote(Some(vote));
        assert precommits.Blocks() == old(precommits.Blocks());
      } else {
        result := precommits.AddVote(Some(vote));
        assert prevotes.Blocks() == old(prevotes.Blocks());
      }
    }
  }

  lemma StartUnfolds(s: Setup, node: Node, i: nat, data: ByteString, t: Time)
    requires i < |s.vals| && s.proposer < |s.vals| && ShapedNode(s, node)
    requires node.phase == Idle && SelfIndex(s.vals, s.vals[i].pubKey) == i
    ensures Ready(s, node, Event.Start(i, data, t))
    ensures NodeAfter(s, node, Event.Start(i, data, t))
            == if s.vals[s.proposer].address != s.crypto.addressOf(s.vals[i].pubKey) then node.(phase := Proposing)
               else match ProposalBytes(s.crypto.times, s.chainID, data, t)
                    case None => node.(phase := Failed)
                    case Some(bytes) => node.(phase := Proposing, signed := node.signed + {bytes})
  {
    hide ProposalBytes, AddVote, ShapedNode, SelfIndex;
  }

  lemma ReturnUnfolds(s: Setup, node: Node, i: nat)
    requires i < |s.vals| && s.proposer < |s.vals| && ShapedNode(s, node)
    requires node.phase.Precommitting? && node.precommits.done
    ensures Ready(s, node, Return(i))
    ensures NodeAfter(s, node, Return(i))
            == match Commits.MakeCommit(Cfg(s, PRECOMMIT_TYPE), node.precommits)
               case None => node.(phase := Failed)
               case Some(c) => node.(phase := Returned(node.phase.data, node.phase.hash, c))
  {
    hide Commits.MakeCommit, AddVote, ShapedNode;
  }
}
