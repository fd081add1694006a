/** The steps that extend logs keep the invariant: winning an election (the first no-op),
    proposing, and accepting a leader's entries. */
module RaftReplication {
  import opened ByteStrings
  import opened RaftLog
  import opened RaftNode
  import opened RaftProtocol
  import opened RaftInvariant
  import opened RaftSteps

  /** Node i, leading its term, appends one entry of that term; a won election is recorded with it. */
  ghost predicate Growing(ids: set<Id>, s: Cluster, s': Cluster, i: Id) {
    && s.nodes.Keys == ids && i in ids && s'.nodes.Keys == ids && s'.nodes == s.nodes[i := s'.nodes[i]]
    && s'.msgs == s.msgs
    && var n, n', h, h' := s.nodes[i], s'.nodes[i], s.h, s'.h;
    && n'.term == n.term && n'.votedFor == n.votedFor && n'.role == Leader
    && n'.commit == n.commit && n'.applied == n.applied && n'.output == n.output
    && |n'.log| == |n.log| + 1 && Has(n'.log, n.log, |n.log|)
    && n'.log[|n.log|].term == n.term && n'.log[|n.log|].index == |n.log| + 1
    && h'.grants == h.grants && h'.commits == h.commits
    && h'.line == h.line[n.term := n'.log] && h'.acks == h.acks[(i, n.term) := |n'.log|]
    && (n.term in h.line ==> Has(n'.log, h.line[n.term], |h.line[n.term]|))
    && h'.elected.Keys == h.elected.Keys + {n.term}
    && (forall t :: t in h.elected ==> h'.elected[t] == h.elected[t])
    && ((i, n.term) in h.acks ==> h.acks[(i, n.term)] <= |n'.log|)
    && n.term >= 1
  }

  lemma GrowingLines(ids: set<Id>, s: Cluster, s': Cluster, i: Id)
    requires Inv(ids, s) && Growing(ids, s, s', i)
    ensures OnLines(s'.nodes[i].log, s'.h.line)
    ensures forall t {:trigger LineOk(t, s'.h.line)} :: t in s'.h.line ==> LineOk(t, s'.h.line)
  {
    var n, n', h, h' := s.nodes[i], s'.nodes[i], s.h, s'.h;
    assert NodeOk(ids, i, n, h);
    forall j | 0 <= j < |n'.log| ensures OnLine(n'.log, j, h'.line) {
      if j < |n.log| { assert OnLine(n.log, j, h.line); }
    }
    forall t | t in h'.line ensures LineOk(t, h'.line) {
      if t != n.term {
        assert LineOk(t, h.line);
        OnLinesGrows(h.line[t], h, h');
      }
    }
  }

  lemma GrowingGrants(ids: set<Id>, s: Cluster, s': Cluster, i: Id)
    requires Inv(ids, s) && Growing(ids, s, s', i)
    ensures forall v, t {:trigger GrantOk(ids, v, t, s'.nodes[v], s'.h)} :: (v, t) in s'.h.grants ==>
            GrantOk(ids, v, t, s'.nodes[v], s'.h)
  {
    AcksOnLine(ids, s);
    forall v, t | (v, t) in s'.h.grants ensures GrantOk(ids, v, t, s'.nodes[v], s'.h) {
      assert GrantOk(ids, v, t, s.nodes[v], s.h);
      GrantOkGrows(ids, v, t, s.nodes[v], s'.nodes[v], s.h, s'.h);
    }
  }

  lemma GrowingAcks(ids: set<Id>, s: Cluster, s': Cluster, i: Id)
    requires Inv(ids, s) && Growing(ids, s, s', i)
    ensures forall v, t {:trigger AckOk(ids, v, t, s'.nodes[v], s'.h)} :: (v, t) in s'.h.acks ==>
            AckOk(ids, v, t, s'.nodes[v], s'.h)
  {
    forall v, t | (v, t) in s'.h.acks ensures AckOk(ids, v, t, s'.nodes[v], s'.h) {
      if v != i || t != s.nodes[i].term {
        assert AckOk(ids, v, t, s.nodes[v], s.h);
        AckOkGrows(ids, v, t, s.nodes[v], s'.nodes[v], s.h, s'.h);
      }
    }
  }

  lemma GrowingElections(ids: set<Id>, s: Cluster, s': Cluster, i: Id)
    requires Inv(ids, s) && Growing(ids, s, s', i) && ElectionOk(ids, s.nodes[i].term, s'.nodes, s'.h)
    ensures forall t {:trigger ElectionOk(ids, t, s'.nodes, s'.h)} :: t in s'.h.elected ==>
            ElectionOk(ids, t, s'.nodes, s'.h)
  {
    forall t | t in s'.h.elected ensures ElectionOk(ids, t, s'.nodes, s'.h) {
      if t != s.nodes[i].term {
        assert ElectionOk(ids, t, s.nodes, s.h);
        var e := s.h.elected[t];
        forall v | v in e.voters ensures VotedFor(s'.h, v, t, e.leader) { assert VotedFor(s.h, v, t, e.leader); }
      }
    }
  }

  lemma GrowingNode(ids: set<Id>, s: Cluster, s': Cluster, i: Id)
    requires Inv(ids, s) && Growing(ids, s, s', i) && LeaderOk(ids, i, s'.nodes[i], s'.h)
    requires OnLines(s'.nodes[i].log, s'.h.line)
    ensures NodeOk(ids, i, s'.nodes[i], s'.h)
  {
    var n, n' := s.nodes[i], s'.nodes[i];
    assert NodeOk(ids, i, n, s.h);
    SettledGrows(s.h, s'.h, n.log, n.commit, n.term, n.term);
    SettledPrefix(s'.h, n.log, n'.log, n.commit, n.term);
    assert n'.output == n'.log[..n'.applied];
  }

  lemma GrowingStep(ids: set<Id>, s: Cluster, s': Cluster, i: Id)
    requires Inv(ids, s) && Growing(ids, s, s', i)
    requires ElectionOk(ids, s.nodes[i].term, s'.nodes, s'.h) && LeaderOk(ids, i, s'.nodes[i], s'.h)
    ensures Inv(ids, s')
  {
    Frame(ids, s, s', i);
    GrowingLines(ids, s, s', i);
    GrowingGrants(ids, s, s', i);
    GrowingAcks(ids, s, s', i);
    GrowingElections(ids, s, s', i);
    GrowingNode(ids, s, s', i);
  }

  lemma ProposeStep(ids: set<Id>, s: Cluster, i: Id, kind: EntryKind, payload: Bytes)
    requires Inv(ids, s) && Enabled(ids, s, ClientProposes(i, kind, payload))
    ensures Inv(ids, Do(ids, s, ClientProposes(i, kind, payload)))
  {
    var s', n := Do(ids, s, ClientProposes(i, kind, payload)), s.nodes[i];
    assert NodeOk(ids, i, n, s.h);
    assert ElectionOk(ids, n.term, s.nodes, s.h);
    assert AckOk(ids, i, n.term, n, s.h);
    assert LineOk(n.term, s.h.line);
    ProposeGrows(ids, s, s', i, kind, payload);
    GrowingStep(ids, s, s', i);
  }

  lemma ProposeGrows(ids: set<Id>, s: Cluster, s': Cluster, i: Id, kind: EntryKind, payload: Bytes)
    requires Enabled(ids, s, ClientProposes(i, kind, payload)) && s' == Do(ids, s, ClientProposes(i, kind, payload))
    requires s.nodes.Keys == ids && NodeOk(ids, i, s.nodes[i], s.h)
    requires s.nodes[i].term in s.h.elected && ElectionOk(ids, s.nodes[i].term, s.nodes, s.h)
    requires (i, s.nodes[i].term) in s.h.acks && AckOk(ids, i, s.nodes[i].term, s.nodes[i], s.h)
    requires s.nodes[i].term in s.h.line && LineOk(s.nodes[i].term, s.h.line)
    ensures Growing(ids, s, s', i)
  {}

  /** Election safety: no one else has won, or will win, the term that i wins now. */
  lemma FirstWinner(ids: set<Id>, s: Cluster, i: Id, votes: set<Id>)
    requires Inv(ids, s) && i in ids && s.nodes[i].role == Candidate && Quorum(ids, votes)
    requires forall v :: v in votes ==> VotedFor(s.h, v, s.nodes[i].term, i)
    ensures s.nodes[i].term !in s.h.elected && s.nodes[i].term !in s.h.line && (i, s.nodes[i].term) !in s.h.acks
  {
    var t := s.nodes[i].term;
    if t in s.h.elected {
      var leader := SameTermSameLeader(ids, s, t, i, votes);
      assert false;
    }
    if (i, t) in s.h.acks {
      AckedLine(ids, s, i, t);
      assert false;
    }
  }

  lemma AckedLine(ids: set<Id>, s: Cluster, i: Id, t: nat)
    requires Inv(ids, s) && (i, t) in s.h.acks
    ensures t in s.h.line
  {
    assert AckOk(ids, i, t, s.nodes[i], s.h);
  }

  /** Two majorities of one term share a voter, who voted once: the winners are the same node,
      and a node that has won its term is no longer a candidate in it. */
  lemma SameTermSameLeader(ids: set<Id>, s: Cluster, t: nat, i: Id, votes: set<Id>) returns (leader: Id)
    requires Inv(ids, s) && t in s.h.elected && Quorum(ids, votes)
    requires forall v :: v in votes ==> VotedFor(s.h, v, t, i)
    ensures leader == i && s.h.elected[t].leader == i && i in ids
    ensures (s.nodes[i].term == t ==> s.nodes[i].role != Candidate)
  {
    assert ElectionOk(ids, t, s.nodes, s.h);
    leader := s.h.elected[t].leader;
    var w := QuorumsMeet(ids, votes, s.h.elected[t].voters);
    assert VotedFor(s.h, w, t, i) && VotedFor(s.h, w, t, leader);
  }

  /** A candidate that becomes leader has counted the votes of a majority. */
  lemma WinningTally(ids: set<Id>, n: Node, h: History, m: Message)
    requires m.VoteResp? && MessageOk(ids, m, h) && CandidateOk(ids, m.to, n, h) && n.role != Leader
    requires HandleVoteReply(n, m.to, ids - {m.to}, m.from, m.sentTerm, m.vresp).role == Leader
    ensures n.role == Candidate
    ensures var n' := HandleVoteReply(n, m.to, ids - {m.to}, m.from, m.sentTerm, m.vresp);
            Quorum(ids, n'.votes) && n' == BecomeLeader(n.(votes := n'.votes), m.to, ids - {m.to}) &&
            forall v :: v in n'.votes ==> VotedFor(h, v, n.term, m.to)
  {
    var n' := HandleVoteReply(n, m.to, ids - {m.to}, m.from, m.sentTerm, m.vresp);
    forall v | v in n'.votes ensures VotedFor(h, v, n.term, m.to) {
      assert v in n.votes ==> VotedFor(h, v, n.term, m.to);
    }
    assert |ids - {m.to}| == |ids| - 1;
  }

  lemma WinStep(ids: set<Id>, s: Cluster, m: Message)
    requires Inv(ids, s) && Enabled(ids, s, ReceiveVoteReply(m))
    requires Do(ids, s, ReceiveVoteReply(m)).nodes[m.to].role == Leader && s.nodes[m.to].role != Leader
    ensures Inv(ids, Do(ids, s, ReceiveVoteReply(m)))
  {
    var s' := Do(ids, s, ReceiveVoteReply(m));
    assert NodeOk(ids, m.to, s.nodes[m.to], s.h);
    assert MessageOk(ids, m, s.h);
    WinningTally(ids, s.nodes[m.to], s.h, m);
    FirstWinner(ids, s, m.to, s'.nodes[m.to].votes);
    WonStep(ids, s, s', m.to, s'.nodes[m.to].votes);
  }

  lemma WonStep(ids: set<Id>, s: Cluster, s': Cluster, i: Id, votes: set<Id>)
    requires Inv(ids, s) && i in ids && s.nodes[i].role == Candidate && CandidateOk(ids, i, s.nodes[i], s.h)
    requires Quorum(ids, votes) && forall v :: v in votes ==> VotedFor(s.h, v, s.nodes[i].term, i)
    requires s.nodes[i].term !in s.h.elected && s.nodes[i].term !in s.h.line && (i, s.nodes[i].term) !in s.h.acks
    requires var n := BecomeLeader(s.nodes[i].(votes := votes), i, ids - {i});
             s' == Put(s, i, n).(h := Ack(s.h.(elected := s.h.elected[n.term := Election(i, votes, n.log)],
                                               line := s.h.line[n.term := n.log]),
                                          i, n.term, |n.log|))
    ensures Inv(ids, s')
  {
    WonGrows(ids, s, s', i, votes);
    WinRecorded(ids, s, s', i);
    GrowingStep(ids, s, s', i);
  }

  lemma WonGrows(ids: set<Id>, s: Cluster, s': Cluster, i: Id, votes: set<Id>)
    requires Inv(ids, s) && i in ids && s.nodes[i].role == Candidate && CandidateOk(ids, i, s.nodes[i], s.h)
    requires s.nodes[i].term !in s.h.elected && s.nodes[i].term !in s.h.line && (i, s.nodes[i].term) !in s.h.acks
    requires var n := BecomeLeader(s.nodes[i].(votes := votes), i, ids - {i});
             s' == Put(s, i, n).(h := Ack(s.h.(elected := s.h.elected[n.term := Election(i, votes, n.log)],
                                               line := s.h.line[n.term := n.log]),
                                          i, n.term, |n.log|))
    ensures Growing(ids, s, s', i)
  {}

  lemma WinRecorded(ids: set<Id>, s: Cluster, s': Cluster, i: Id)
    requires Inv(ids, s) && Growing(ids, s, s', i) && s.nodes[i].role == Candidate
    requires CandidateOk(ids, i, s.nodes[i], s.h)
    requires var n' := s'.nodes[i];
             Quorum(ids, n'.votes) && s'.h.elected == s.h.elected[n'.term := Election(i, n'.votes, n'.log)]
    requires forall v :: v in s'.nodes[i].votes ==> VotedFor(s.h, v, s.nodes[i].term, i)
    ensures ElectionOk(ids, s.nodes[i].term, s'.nodes, s'.h)
  {
    forall v | v in s'.nodes[i].votes ensures VotedFor(s'.h, v, s.nodes[i].term, i) {
      assert VotedFor(s.h, v, s.nodes[i].term, i);
    }
  }

  /** The request passes the follower's check of the entry before the first one it carries. */
  ghost predicate Fits(log: seq<Entry>, r: AppendRequest) {
    r.prevIndex == 0 || (r.prevIndex <= |log| && TermAt(log, r.prevIndex) == r.prevTerm)
  }

  /** The request carries a stretch of the log of the leader of its term. */
  ghost predicate FromLine(r: AppendRequest, h: History) {
    && r.term in h.line && LineOk(r.term, h.line)
    && var line := h.line[r.term];
    && var m := r.prevIndex + |r.entries|;
    && m <= |line| && r.entries == line[r.prevIndex..m] && r.prevTerm == TermAt(line, r.prevIndex)
  }

  /** The follower that accepts a request ends up holding the leader's log up to the last entry
      of the request; entries beyond it survive only if nothing conflicted. */
  lemma AcceptedLog(log: seq<Entry>, r: AppendRequest, h: History)
    requires OnLines(log, h.line) && FromLine(r, h) && Fits(log, r)
    ensures var line := h.line[r.term];
            Indexed(line) && Matching(log, line) && Has(log, line, r.prevIndex)
    ensures var line, m := h.line[r.term], r.prevIndex + |r.entries|;
            Merge(log, r.entries) == if Has(log, line, m) then log else line[..m]
  {
    var line := h.line[r.term];
    LinesMatch(log, line, h.line);
    assert Has(log, line, r.prevIndex) by {
      if r.prevIndex > 0 { assert log[r.prevIndex - 1].term == line[r.prevIndex - 1].term; }
    }
    MergeWithLeader(log, line, r.prevIndex, r.entries);
  }

  lemma AcceptedLogOk(log: seq<Entry>, r: AppendRequest, h: History)
    requires OnLines(log, h.line) && FromLine(r, h) && Fits(log, r) && TermsAtMost(log, r.term)
    ensures OnLines(Merge(log, r.entries), h.line) && TermsAtMost(Merge(log, r.entries), r.term)
  {
    AcceptedLog(log, r, h);
    MergedOk(log, Merge(log, r.entries), r.term, r.prevIndex + |r.entries|, h.line);
  }

  lemma MergedOk(log: seq<Entry>, merged: seq<Entry>, term: nat, m: nat, lines: map<nat, seq<Entry>>)
    requires term in lines && LineOk(term, lines) && OnLines(log, lines) && TermsAtMost(log, term)
    requires m <= |lines[term]| && merged == (if Has(log, lines[term], m) then log else lines[term][..m])
    ensures OnLines(merged, lines) && TermsAtMost(merged, term)
  {
    OnLinesPrefix(lines[term], m, lines);
  }

  lemma OnLinesPrefix(log: seq<Entry>, m: nat, line: map<nat, seq<Entry>>)
    requires OnLines(log, line) && m <= |log|
    ensures OnLines(log[..m], line)
  {
    forall i | 0 <= i < m ensures OnLine(log[..m], i, line) { assert OnLine(log, i, line); }
  }

  /** Safe follower commit: clamping the leader's commit index with its own last index never makes
      a follower commit an entry that the request did not check. */
  lemma AcceptedCommit(log: seq<Entry>, commit: nat, r: AppendRequest, h: History)
    requires OnLines(log, h.line) && FromLine(r, h) && Fits(log, r)
    requires commit <= |log| && Settled(h, log, commit, r.term) && Has(h.line[r.term], log, commit)
    requires r.leaderCommit <= r.prevIndex + |r.entries| && Settled(h, h.line[r.term], r.leaderCommit, r.term)
    ensures var log' := Merge(log, r.entries);
            var commit' := Max(commit, Min(r.leaderCommit, |log'|));
            && Has(log', log, commit) && commit' <= |log'| && Settled(h, log', commit', r.term)
            && (commit' > commit ==> commit' <= r.prevIndex + |r.entries| && Has(log', h.line[r.term], commit'))
  {
    AcceptedHas(log, commit, r, h);
    SettledPrefix(h, log, Merge(log, r.entries), commit, r.term);
    SettledPrefix(h, h.line[r.term], Merge(log, r.entries), r.leaderCommit, r.term);
  }

  lemma AcceptedHas(log: seq<Entry>, commit: nat, r: AppendRequest, h: History)
    requires OnLines(log, h.line) && FromLine(r, h) && Fits(log, r)
    requires commit <= |log| && Has(h.line[r.term], log, commit)
    ensures Has(Merge(log, r.entries), log, commit)
    ensures Has(Merge(log, r.entries), h.line[r.term], r.prevIndex + |r.entries|)
  {
    AcceptedLog(log, r, h);
    MergedKeeps(log, Merge(log, r.entries), h.line[r.term], r.prevIndex + |r.entries|, log, commit);
  }

  /** What the follower confirmed to earlier leaders survives the merge, unless this leader never had it. */
  lemma AcceptedKeeps(log: seq<Entry>, term: nat, r: AppendRequest, h: History, u: nat, k: nat)
    requires OnLines(log, h.line) && FromLine(r, h) && Fits(log, r)
    requires r.term in h.elected && Has(h.line[r.term], h.elected[r.term].log, |h.elected[r.term].log|)
    requires u in h.line && u <= term <= r.term && k <= |h.line[u]| && Kept(h, log, u, term, k)
    ensures Kept(h, Merge(log, r.entries), u, r.term, k)
  {
    var line, base := h.line[r.term], h.line[u];
    AcceptedLog(log, r, h);
    if Has(log, base, k) {
      if Has(line, base, k) {
        MergedKeeps(log, Merge(log, r.entries), line, r.prevIndex + |r.entries|, base, k);
      } else {
        assert u < r.term && !Has(h.elected[r.term].log, base, k);
      }
    } else {
      var w :| w in h.elected && u < w <= term && !Has(h.elected[w].log, base, k);
      assert u < w <= r.term;
    }
  }

  lemma RequestFromLine(ids: set<Id>, s: Cluster, r: AppendRequest, from: Id)
    requires Inv(ids, s) && AppendReqOk(r, from, s.h)
    ensures FromLine(r, s.h) && Has(s.h.line[r.term], s.h.elected[r.term].log, |s.h.elected[r.term].log|)
  {
    assert LineOk(r.term, s.h.line);
    assert ElectionOk(ids, r.term, s.nodes, s.h);
  }

  /** Node i takes the entries of a current leader other than itself. */
  ghost predicate Accepting(ids: set<Id>, s: Cluster, s': Cluster, i: Id, r: AppendRequest, from: Id) {
    && s.nodes.Keys == ids && i in ids && s'.nodes.Keys == ids && s'.nodes == s.nodes[i := s'.nodes[i]]
    && var n, n', h, h', m := s.nodes[i], s'.nodes[i], s.h, s'.h, r.prevIndex + |r.entries|;
    && AppendReqOk(r, from, h) && from != i && n.term <= r.term
    && Fits(n.log, r)
    && n'.term == r.term && n'.role == Follower && n'.log == Merge(n.log, r.entries)
    && n'.commit == Max(n.commit, Min(r.leaderCommit, |n'.log|)) && n'.applied == n.applied && n'.output == n.output
    && (n'.term == n.term ==> n'.votedFor == n.votedFor)
    && h' == Ack(h, i, r.term, m)
    && s'.msgs == s.msgs + {AppendResp(i, from, r.term, AppendReply(r.term, true, m))}
  }

  lemma AcceptingAcks(ids: set<Id>, s: Cluster, s': Cluster, i: Id, r: AppendRequest, from: Id)
    requires Inv(ids, s) && Accepting(ids, s, s', i, r, from)
    ensures forall v, t {:trigger AckOk(ids, v, t, s'.nodes[v], s'.h)} :: (v, t) in s'.h.acks ==>
            AckOk(ids, v, t, s'.nodes[v], s'.h)
  {
    RequestFromLine(ids, s, r, from);
    assert NodeOk(ids, i, s.nodes[i], s.h);
    forall v, t | (v, t) in s'.h.acks ensures AckOk(ids, v, t, s'.nodes[v], s'.h) {
      if (v, t) in s.h.acks { assert AckOk(ids, v, t, s.nodes[v], s.h); }
      if v != i {
        AckOkGrows(ids, v, t, s.nodes[v], s'.nodes[v], s.h, s'.h);
      } else {
        AcceptingOwnAck(ids, s, s', i, r, from, t);
      }
    }
  }

  lemma AcceptingOwnAck(ids: set<Id>, s: Cluster, s': Cluster, i: Id, r: AppendRequest, from: Id, t: nat)
    requires Accepting(ids, s, s', i, r, from) && (i, t) in s'.h.acks && LogOk(s.nodes[i], s.h)
    requires FromLine(r, s.h) && Has(s.h.line[r.term], s.h.elected[r.term].log, |s.h.elected[r.term].log|)
    requires (i, t) in s.h.acks ==> AckOk(ids, i, t, s.nodes[i], s.h)
    ensures AckOk(ids, i, t, s'.nodes[i], s'.h)
  {
    forall k | 0 <= k <= s'.h.acks[(i, t)] ensures Kept(s'.h, s'.nodes[i].log, t, r.term, k) {
      if t == r.term && k <= r.prevIndex + |r.entries| {
        AcceptedLog(s.nodes[i].log, r, s.h);
      } else {
        assert Kept(s.h, s.nodes[i].log, t, s.nodes[i].term, k);
        AcceptedKeeps(s.nodes[i].log, s.nodes[i].term, r, s.h, t, k);
        KeptGrows(s.h, s'.h, s'.nodes[i].log, t, r.term, r.term, k);
      }
    }
  }

  lemma AcceptingGrants(ids: set<Id>, s: Cluster, s': Cluster, i: Id, r: AppendRequest, from: Id)
    requires Inv(ids, s) && Accepting(ids, s, s', i, r, from)
    ensures forall v, t {:trigger GrantOk(ids, v, t, s'.nodes[v], s'.h)} :: (v, t) in s'.h.grants ==>
            GrantOk(ids, v, t, s'.nodes[v], s'.h)
  {
    AcksOnLine(ids, s);
    forall v, t | (v, t) in s'.h.grants ensures GrantOk(ids, v, t, s'.nodes[v], s'.h) {
      assert GrantOk(ids, v, t, s.nodes[v], s.h);
      GrantOkGrows(ids, v, t, s.nodes[v], s'.nodes[v], s.h, s'.h);
    }
  }

  lemma AcceptingElections(ids: set<Id>, s: Cluster, s': Cluster, i: Id, r: AppendRequest, from: Id)
    requires Inv(ids, s) && Accepting(ids, s, s', i, r, from)
    ensures forall t {:trigger ElectionOk(ids, t, s'.nodes, s'.h)} :: t in s'.h.elected ==>
            ElectionOk(ids, t, s'.nodes, s'.h)
  {
    forall t | t in s'.h.elected ensures ElectionOk(ids, t, s'.nodes, s'.h) {
      assert ElectionOk(ids, t, s.nodes, s.h);
      var e := s.h.elected[t];
      forall v | v in e.voters ensures VotedFor(s'.h, v, t, e.leader) { assert VotedFor(s.h, v, t, e.leader); }
    }
  }

  lemma AcceptingNode(ids: set<Id>, s: Cluster, s': Cluster, i: Id, r: AppendRequest, from: Id)
    requires Inv(ids, s) && Accepting(ids, s, s', i, r, from)
    ensures NodeOk(ids, i, s'.nodes[i], s'.h)
  {
    var n := s.nodes[i];
    assert NodeOk(ids, i, n, s.h);
    RequestFromLine(ids, s, r, from);
    SettledOnLine(ids, s, n.log, n.commit, n.term, r.term);
    SettledGrows(s.h, s.h, n.log, n.commit, n.term, r.term);
    AcceptedNodeLog(n, s'.nodes[i], r, s.h);
    LogOkGrows(s'.nodes[i], s.h, s'.h);
  }

  lemma AcceptedNodeLog(n: Node, n': Node, r: AppendRequest, h: History)
    requires LogOk(n, h) && FromLine(r, h) && Fits(n.log, r) && n.term <= r.term
    requires Settled(h, n.log, n.commit, r.term) && Has(h.line[r.term], n.log, n.commit)
    requires r.leaderCommit <= r.prevIndex + |r.entries| && Settled(h, h.line[r.term], r.leaderCommit, r.term)
    requires n'.term == r.term && n'.log == Merge(n.log, r.entries)
    requires n'.commit == Max(n.commit, Min(r.leaderCommit, |n'.log|))
    requires n'.applied == n.applied && n'.output == n.output
    ensures LogOk(n', h)
  {
    AcceptedLogOk(n.log, r, h);
    AcceptedCommit(n.log, n.commit, r, h);
    assert n'.output == n'.log[..n'.applied];
  }

  lemma AcceptingFrame(ids: set<Id>, s: Cluster, s': Cluster, i: Id, r: AppendRequest, from: Id)
    requires Inv(ids, s) && Accepting(ids, s, s', i, r, from) && from in ids
    ensures Framed(ids, s, s', i) && Extends(s.h, s'.h)
    ensures forall m {:trigger MessageOk(ids, m, s'.h)} :: m in s'.msgs ==> MessageOk(ids, m, s'.h)
    ensures forall t {:trigger LineOk(t, s'.h.line)} :: t in s'.h.line ==> LineOk(t, s'.h.line)
  {
    Frame(ids, s, s', i);
    forall t | t in s'.h.line ensures LineOk(t, s'.h.line) { assert LineOk(t, s.h.line); }
  }

  lemma AcceptStep(ids: set<Id>, s: Cluster, s': Cluster, i: Id, r: AppendRequest, from: Id)
    requires Inv(ids, s) && Accepting(ids, s, s', i, r, from) && from in ids
    ensures Inv(ids, s')
  {
    AcceptingFrame(ids, s, s', i, r, from);
    AcceptingElections(ids, s, s', i, r, from);
    AcceptingGrants(ids, s, s', i, r, from);
    AcceptingAcks(ids, s, s', i, r, from);
    AcceptingNode(ids, s, s', i, r, from);
  }

  lemma AppendAcceptedStep(ids: set<Id>, s: Cluster, m: Message)
    requires Inv(ids, s) && Enabled(ids, s, ReceiveAppend(m)) && HandleAppend(s.nodes[m.to], m.areq).1.success
    ensures Inv(ids, Do(ids, s, ReceiveAppend(m)))
  {
    assert MessageOk(ids, m, s.h);
    AcceptStep(ids, s, Do(ids, s, ReceiveAppend(m)), m.to, m.areq, m.from);
  }
}
