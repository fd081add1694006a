/** The steps that cast votes and elect leaders keep the invariant. A leader that lost its quorum
    has cleared its vote in its own term; it cannot vote again there because its log ends in an
    entry of that term, which no candidate of that term can match. */
module RaftElections {
  import opened ByteStrings
  import opened RaftLog
  import opened RaftNode
  import opened RaftProtocol
  import opened RaftInvariant
  import opened RaftSteps

  /** Node i casts a vote it had not cast before. */
  ghost predicate Voting(ids: set<Id>, s: Cluster, s': Cluster, i: Id, g: Grant) {
    && s.nodes.Keys == ids && i in ids && s'.nodes.Keys == ids && s'.nodes == s.nodes[i := s'.nodes[i]]
    && var n, n' := s.nodes[i], s'.nodes[i];
    && n'.log == n.log && n'.term >= n.term && n'.term >= 1 && n'.votedFor == Some(g.candidate)
    && (i, n'.term) !in s.h.grants && s'.h == s.h.(grants := s.h.grants[(i, n'.term) := g])
    && (n'.role == Candidate ==> n.role == Candidate || n'.term > n.term)
  }

  lemma VotingElections(ids: set<Id>, s: Cluster, s': Cluster, i: Id, g: Grant)
    requires Inv(ids, s) && Voting(ids, s, s', i, g)
    ensures forall t {:trigger ElectionOk(ids, t, s'.nodes, s'.h)} :: t in s'.h.elected ==>
            ElectionOk(ids, t, s'.nodes, s'.h)
  {
    forall t | t in s'.h.elected ensures ElectionOk(ids, t, s'.nodes, s'.h) {
      assert ElectionOk(ids, t, s.nodes, s.h);
      var e := s.h.elected[t];
      forall v | v in e.voters ensures VotedFor(s'.h, v, t, e.leader) { assert VotedFor(s.h, v, t, e.leader); }
    }
  }

  lemma VotingGrants(ids: set<Id>, s: Cluster, s': Cluster, i: Id, g: Grant)
    requires Inv(ids, s) && Voting(ids, s, s', i, g) && GrantOk(ids, i, s'.nodes[i].term, s'.nodes[i], s'.h)
    ensures forall v, t {:trigger GrantOk(ids, v, t, s'.nodes[v], s'.h)} :: (v, t) in s'.h.grants ==>
            GrantOk(ids, v, t, s'.nodes[v], s'.h)
  {
    AcksOnLine(ids, s);
    forall v, t | (v, t) in s'.h.grants ensures GrantOk(ids, v, t, s'.nodes[v], s'.h) {
      if (v, t) in s.h.grants {
        assert GrantOk(ids, v, t, s.nodes[v], s.h);
        GrantOkGrows(ids, v, t, s.nodes[v], s'.nodes[v], s.h, s'.h);
      }
    }
  }

  lemma VotingAcks(ids: set<Id>, s: Cluster, s': Cluster, i: Id, g: Grant)
    requires Inv(ids, s) && Voting(ids, s, s', i, g)
    ensures forall v, t {:trigger AckOk(ids, v, t, s'.nodes[v], s'.h)} :: (v, t) in s'.h.acks ==>
            AckOk(ids, v, t, s'.nodes[v], s'.h)
  {
    forall v, t | (v, t) in s'.h.acks ensures AckOk(ids, v, t, s'.nodes[v], s'.h) {
      assert AckOk(ids, v, t, s.nodes[v], s.h);
      AckOkGrows(ids, v, t, s.nodes[v], s'.nodes[v], s.h, s'.h);
    }
  }

  lemma VotingStep(ids: set<Id>, s: Cluster, s': Cluster, i: Id, g: Grant)
    requires Inv(ids, s) && Voting(ids, s, s', i, g)
    requires NodeOk(ids, i, s'.nodes[i], s'.h) && GrantOk(ids, i, s'.nodes[i].term, s'.nodes[i], s'.h)
    requires forall m {:trigger MessageOk(ids, m, s'.h)} :: m in s'.msgs && m !in s.msgs ==> MessageOk(ids, m, s'.h)
    ensures Inv(ids, s')
  {
    Frame(ids, s, s', i);
    VotingElections(ids, s, s', i, g);
    VotingGrants(ids, s, s', i, g);
    VotingAcks(ids, s, s', i, g);
    forall t | t in s'.h.line ensures LineOk(t, s'.h.line) { assert LineOk(t, s.h.line); }
  }

  /** What i has confirmed is in the log it votes with, as long as no one leads its term. */
  lemma VoteKeepsNow(ids: set<Id>, s: Cluster, i: Id, t: nat, h': History)
    requires Inv(ids, s) && i in ids && s.nodes[i].term <= t && t !in s.h.elected
    requires (i, t) in h'.grants && h'.grants[(i, t)].log == s.nodes[i].log
    requires h'.acks == s.h.acks && h'.line == s.h.line && h'.elected == s.h.elected
    ensures VoteKeeps(h', i, t)
  {
    var n := s.nodes[i];
    forall u: nat, k: nat | u < t && Acked(h', i, u, k) ensures KeptAtVote(h', i, t, u, k) {
      assert AckOk(ids, i, u, n, s.h);
      assert Kept(s.h, n.log, u, n.term, k);
      if !Has(n.log, s.h.line[u], k) {
        var w :| w in s.h.elected && u < w <= n.term && !Has(s.h.elected[w].log, s.h.line[u], k);
        assert w in h'.elected && u < w <= t - 1;
      }
    }
  }

  lemma TimeoutStep(ids: set<Id>, s: Cluster, i: Id)
    requires Inv(ids, s) && Enabled(ids, s, ElectionTimeout(i))
    ensures Inv(ids, Do(ids, s, ElectionTimeout(i)))
  {
    var s', n := Do(ids, s, ElectionTimeout(i)), s.nodes[i];
    var n', g := s'.nodes[i], Grant(i, n.log);
    assert NodeOk(ids, i, n, s.h);
    assert (i, n'.term) !in s.h.grants;
    assert s'.h == s.h.(grants := s.h.grants[(i, n'.term) := g]);
    LogOkLater(n, n', s.h);
    LogOkGrows(n', s.h, s'.h);
    if n'.term !in s.h.elected { VoteKeepsNow(ids, s, i, n'.term, s'.h); }
    else { NotYetVoted(ids, s, i, n'.term); }
    OnLinesGrows(n.log, s.h, s'.h);
    VotingStep(ids, s, s', i, g);
  }

  /** A node that has not voted in a term is not among the voters of that term. */
  lemma NotYetVoted(ids: set<Id>, s: Cluster, i: Id, t: nat)
    requires Inv(ids, s) && (i, t) !in s.h.grants && t in s.h.elected
    ensures i !in s.h.elected[t].voters
  {
    assert ElectionOk(ids, t, s.nodes, s.h);
  }

  /** The heart of election safety: a repeated vote in a term goes to the same candidate, also
      when the voter is a leader that cleared its vote by stepping down. */
  lemma SecondVoteIsTheSame(ids: set<Id>, s: Cluster, m: Message)
    requires Inv(ids, s) && m in s.msgs && m.VoteReq? && m.to in ids
    requires HandleVote(s.nodes[m.to], m.vreq).1.granted && (m.to, m.vreq.term) in s.h.grants
    ensures s.h.grants[(m.to, m.vreq.term)].candidate == m.from
    ensures s.nodes[m.to].term == m.vreq.term
  {
    var v, t, n := m.to, m.vreq.term, s.nodes[m.to];
    assert MessageOk(ids, m, s.h);
    assert GrantOk(ids, v, t, n, s.h);
    assert GrantOk(ids, m.from, t, s.nodes[m.from], s.h);
    if t in s.h.elected && s.h.elected[t].leader == v { LeaderLogEnds(ids, s, t); }
  }

  /** As long as its term lasts, the log of the leader of a term ends in an entry of that term. */
  lemma LeaderLogEnds(ids: set<Id>, s: Cluster, t: nat)
    requires Inv(ids, s) && t in s.h.elected
    ensures var leader := s.h.elected[t].leader;
            leader in ids && (s.nodes[leader].term == t ==> LastTerm(s.nodes[leader].log) == t)
  {
    assert ElectionOk(ids, t, s.nodes, s.h) && LineOk(t, s.h.line);
  }

  lemma VoteGrantedStep(ids: set<Id>, s: Cluster, m: Message)
    requires Inv(ids, s) && Enabled(ids, s, ReceiveVote(m)) && HandleVote(s.nodes[m.to], m.vreq).1.granted
    ensures Inv(ids, Do(ids, s, ReceiveVote(m)))
  {
    var s', v, n := Do(ids, s, ReceiveVote(m)), m.to, s.nodes[m.to];
    assert NodeOk(ids, v, n, s.h);
    assert MessageOk(ids, m, s.h);
    LogOkLater(n, s'.nodes[v], s.h);
    if (v, m.vreq.term) in s.h.grants {
      SecondVoteIsTheSame(ids, s, m);
      SameVoteStep(ids, s, s', v);
    } else {
      NodeOkGrows(ids, v, s'.nodes[v], s.h, s'.h);
      FirstVoteOk(ids, s, v, m.vreq, s'.nodes[v], s'.h);
      VotingStep(ids, s, s', v, Grant(m.from, n.log));
    }
  }

  /** A first vote in a term is backed by everything the record asks of a vote. */
  lemma FirstVoteOk(ids: set<Id>, s: Cluster, v: Id, r: VoteRequest, n': Node, h': History)
    requires Inv(ids, s) && v in ids && s.nodes[v].term <= r.term && (v, r.term) !in s.h.grants
    requires n'.term == r.term && n'.votedFor == Some(r.candidate)
    requires h' == s.h.(grants := s.h.grants[(v, r.term) := Grant(r.candidate, s.nodes[v].log)])
    requires r.candidate in ids && r.candidate != v && VotedFor(s.h, r.candidate, r.term, r.candidate)
    requires UpToDate(|s.h.grants[(r.candidate, r.term)].log|, LastTerm(s.h.grants[(r.candidate, r.term)].log),
             s.nodes[v].log)
    ensures GrantOk(ids, v, r.term, n', h')
  {
    assert NodeOk(ids, v, s.nodes[v], s.h);
    if r.term !in s.h.elected { VoteKeepsNow(ids, s, v, r.term, h'); }
    else { NotYetVoted(ids, s, v, r.term); }
  }

  /** Voting again for the same candidate, or restoring a vote, changes nothing on record. */
  lemma SameVoteStep(ids: set<Id>, s: Cluster, s': Cluster, i: Id)
    requires Inv(ids, s) && i in ids && s'.h == s.h && s'.nodes.Keys == ids && s'.nodes == s.nodes[i := s'.nodes[i]]
    requires s'.nodes[i].log == s.nodes[i].log && s'.nodes[i].term == s.nodes[i].term
    requires s'.nodes[i].role == s.nodes[i].role
    requires (i, s.nodes[i].term) in s.h.grants
    requires s'.nodes[i].votedFor == Some(s.h.grants[(i, s.nodes[i].term)].candidate)
    requires NodeOk(ids, i, s'.nodes[i], s.h)
    requires forall m {:trigger MessageOk(ids, m, s'.h)} :: m in s'.msgs && m !in s.msgs ==> MessageOk(ids, m, s'.h)
    ensures Inv(ids, s')
  {
    Frame(ids, s, s', i);
    SameVoteRecords(ids, s, s', i);
  }

  lemma SameVoteRecords(ids: set<Id>, s: Cluster, s': Cluster, i: Id)
    requires Inv(ids, s) && i in ids && s'.h == s.h && s'.nodes.Keys == ids && s'.nodes == s.nodes[i := s'.nodes[i]]
    requires s'.nodes[i].log == s.nodes[i].log && s'.nodes[i].term == s.nodes[i].term
    requires s'.nodes[i].role == s.nodes[i].role
    requires (i, s.nodes[i].term) in s.h.grants
    requires s'.nodes[i].votedFor == Some(s.h.grants[(i, s.nodes[i].term)].candidate)
    ensures forall t {:trigger ElectionOk(ids, t, s'.nodes, s'.h)} :: t in s'.h.elected ==>
            ElectionOk(ids, t, s'.nodes, s'.h)
    ensures forall v, t {:trigger GrantOk(ids, v, t, s'.nodes[v], s'.h)} :: (v, t) in s'.h.grants ==>
            GrantOk(ids, v, t, s'.nodes[v], s'.h)
    ensures forall v, t {:trigger AckOk(ids, v, t, s'.nodes[v], s'.h)} :: (v, t) in s'.h.acks ==>
            AckOk(ids, v, t, s'.nodes[v], s'.h)
    ensures forall t {:trigger LineOk(t, s'.h.line)} :: t in s'.h.line ==> LineOk(t, s'.h.line)
  {
    forall t | t in s'.h.elected ensures ElectionOk(ids, t, s'.nodes, s'.h) { assert ElectionOk(ids, t, s.nodes, s.h); }
    forall v, t | (v, t) in s'.h.grants
      ensures GrantOk(ids, v, t, s'.nodes[v], s'.h)
    { assert GrantOk(ids, v, t, s.nodes[v], s.h); }
    forall v, t | (v, t) in s'.h.acks
      ensures AckOk(ids, v, t, s'.nodes[v], s'.h)
    { assert AckOk(ids, v, t, s.nodes[v], s.h); }
    forall t | t in s'.h.line ensures LineOk(t, s'.h.line) { assert LineOk(t, s.h.line); }
  }
}
