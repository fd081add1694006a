/** Every step of the cluster keeps the invariant. */
module RaftSteps {
  import opened ByteStrings
  import opened RaftLog
  import opened RaftNode
  import opened RaftProtocol
  import opened RaftInvariant

  /** The history only grows. */
  ghost predicate Extends(h: History, h': History) {
    && (forall x :: x in h.grants ==> x in h'.grants && h'.grants[x] == h.grants[x])
    && (forall t :: t in h.elected ==> t in h'.elected && h'.elected[t] == h.elected[t])
    && (forall t :: t in h.line ==> t in h'.line && Has(h'.line[t], h.line[t], |h.line[t]|))
    && (forall x :: x in h.acks ==> x in h'.acks && h.acks[x] <= h'.acks[x])
    && h.commits <= h'.commits
  }

  lemma OnLinesGrows(log: seq<Entry>, h: History, h': History)
    requires Extends(h, h') && OnLines(log, h.line)
    ensures OnLines(log, h'.line)
  {
    forall i | 0 <= i < |log| ensures OnLine(log, i, h'.line) {
      assert OnLine(log, i, h.line);
    }
  }

  lemma KeptGrows(h: History, h': History, log: seq<Entry>, t: nat, hi: int, hi': int, k: nat)
    requires Extends(h, h') && t in h.line && k <= |h.line[t]| && Kept(h, log, t, hi, k) && hi <= hi'
    ensures Kept(h', log, t, hi', k)
  {
    if !Has(log, h.line[t], k) {
      var u :| u in h.elected && t < u <= hi && !Has(h.elected[u].log, h.line[t], k);
      assert u in h'.elected && !Has(h'.elected[u].log, h'.line[t], k);
    }
  }

  lemma SettledGrows(h: History, h': History, log: seq<Entry>, k: nat, t: nat, t': nat)
    requires Extends(h, h') && Settled(h, log, k, t) && t <= t'
    ensures Settled(h', log, k, t')
  {
    if k > 0 {
      var c :| c in h.commits && CoveredBy(h, c, log, k, t);
      assert c in h'.commits && CoveredBy(h', c, log, k, t');
    }
  }

  lemma LogOkGrows(n: Node, h: History, h': History)
    requires Extends(h, h') && LogOk(n, h)
    ensures LogOk(n, h')
  {
    OnLinesGrows(n.log, h, h');
    SettledGrows(h, h', n.log, n.commit, n.term, n.term);
  }

  lemma NodeOkGrows(ids: set<Id>, i: Id, n: Node, h: History, h': History)
    requires Extends(h, h') && NodeOk(ids, i, n, h)
    ensures NodeOk(ids, i, n, h')
  {
    LogOkGrows(n, h, h');
    if n.role == Candidate {
      forall v | v in n.votes ensures VotedFor(h', v, n.term, i) { assert VotedFor(h, v, n.term, i); }
    }
  }

  lemma MessageOkGrows(ids: set<Id>, m: Message, h: History, h': History)
    requires Extends(h, h') && MessageOk(ids, m, h)
    ensures MessageOk(ids, m, h')
  {
    if m.AppendReq? {
      var r := m.areq;
      var line, line', e := h.line[r.term], h'.line[r.term], r.prevIndex + |r.entries|;
      assert line'[r.prevIndex..e] == line[r.prevIndex..e];
      SettledGrows(h, h', line, r.leaderCommit, r.term, r.term);
      SettledPrefix(h', line, line', r.leaderCommit, r.term);
    }
  }

  lemma SettledPrefix(h: History, log: seq<Entry>, log': seq<Entry>, k: nat, t: nat)
    requires Settled(h, log, k, t) && Has(log', log, k)
    ensures Settled(h, log', k, t)
  {
    if k > 0 {
      var c :| c in h.commits && CoveredBy(h, c, log, k, t);
      assert CoveredBy(h, c, log', k, t);
    }
  }

  lemma CommitOkGrows(ids: set<Id>, c: Commit, h: History, h': History)
    requires Extends(h, h') && CommitOk(ids, c, h)
    ensures CommitOk(ids, c, h')
  {
    forall v | v in c.quorum ensures Acked(h', v, c.term, c.index) { assert Acked(h, v, c.term, c.index); }
  }

  /** What a step at node i leaves to be shown: facts about i and about what is new. */
  ghost predicate Framed(ids: set<Id>, s: Cluster, s': Cluster, i: Id)
    requires s.nodes.Keys == s'.nodes.Keys == ids
  {
    && (forall j {:trigger NodeOk(ids, j, s'.nodes[j], s'.h)} :: j in ids && j != i ==>
        NodeOk(ids, j, s'.nodes[j], s'.h))
    && (forall m {:trigger MessageOk(ids, m, s'.h)} :: m in s.msgs ==> MessageOk(ids, m, s'.h))
    && (forall c {:trigger CommitOk(ids, c, s'.h)} :: c in s.h.commits ==> CommitOk(ids, c, s'.h))
  }

  lemma Frame(ids: set<Id>, s: Cluster, s': Cluster, i: Id)
    requires Inv(ids, s) && i in ids && s'.nodes.Keys == ids && s'.nodes == s.nodes[i := s'.nodes[i]]
    requires Extends(s.h, s'.h)
    ensures Framed(ids, s, s', i)
  {
    forall j | j in ids && j != i ensures NodeOk(ids, j, s'.nodes[j], s'.h) {
      assert NodeOk(ids, j, s.nodes[j], s.h);
      NodeOkGrows(ids, j, s.nodes[j], s.h, s'.h);
    }
    forall m | m in s.msgs ensures MessageOk(ids, m, s'.h) {
      assert MessageOk(ids, m, s.h);
      MessageOkGrows(ids, m, s.h, s'.h);
    }
    forall c | c in s.h.commits ensures CommitOk(ids, c, s'.h) {
      assert CommitOk(ids, c, s.h);
      CommitOkGrows(ids, c, s.h, s'.h);
    }
  }

  /** A grant survives a step in which its voter confirms nothing below the voted term. */
  lemma GrantOkGrows(ids: set<Id>, v: Id, t: nat, n: Node, n': Node, h: History, h': History)
    requires Extends(h, h') && (v, t) in h.grants && GrantOk(ids, v, t, n, h) && n.term >= t
    requires forall u {:trigger (v, u) in h'.acks} :: u < t && (v, u) in h'.acks ==>
             (v, u) in h.acks && h'.acks[(v, u)] == h.acks[(v, u)]
    requires forall u, k: nat {:trigger Acked(h, v, u, k)} :: Acked(h, v, u, k) ==> u in h.line && k <= |h.line[u]|
    requires n'.term >= n.term
    requires n'.term == t ==>
             n'.votedFor == n.votedFor || (n'.votedFor == None && t in h.elected && h.elected[t].leader == v)
    ensures GrantOk(ids, v, t, n', h')
  {
    var g := h.grants[(v, t)];
    OnLinesGrows(g.log, h, h');
    if t !in h'.elected || v in h'.elected[t].voters {
      forall u: nat, k: nat | u < t && Acked(h', v, u, k) ensures KeptAtVote(h', v, t, u, k) {
        assert Acked(h, v, u, k);
        assert KeptAtVote(h, v, t, u, k);
        KeptGrows(h, h', g.log, u, t - 1, t - 1, k);
      }
    }
  }

  lemma AcksOnLine(ids: set<Id>, s: Cluster)
    requires Inv(ids, s)
    ensures forall v, u, k: nat {:trigger Acked(s.h, v, u, k)} :: Acked(s.h, v, u, k) ==>
            u in s.h.line && k <= |s.h.line[u]|
  {
    forall v, u, k: nat | Acked(s.h, v, u, k) ensures u in s.h.line && k <= |s.h.line[u]| {
      assert AckOk(ids, v, u, s.nodes[v], s.h);
    }
  }

  /** Node i changes neither its log nor what it promised; the elections, votes, lines and
      confirmations on record stay the same. */
  ghost predicate Quiet(ids: set<Id>, s: Cluster, s': Cluster, i: Id) {
    && s.nodes.Keys == ids && i in ids && s'.nodes.Keys == ids && s'.nodes == s.nodes[i := s'.nodes[i]]
    && s'.h.grants == s.h.grants && s'.h.elected == s.h.elected
    && s'.h.line == s.h.line && s'.h.acks == s.h.acks && s.h.commits <= s'.h.commits
    && var n, n' := s.nodes[i], s'.nodes[i];
    && n'.log == n.log && n'.term >= n.term && (n'.role == Candidate ==> n.role == Candidate)
    && (n'.term == n.term ==> n'.votedFor == n.votedFor || (n.role == Leader && n'.votedFor == None))
  }

  lemma QuietElections(ids: set<Id>, s: Cluster, s': Cluster, i: Id)
    requires Inv(ids, s) && Quiet(ids, s, s', i)
    ensures forall t {:trigger ElectionOk(ids, t, s'.nodes, s'.h)} :: t in s'.h.elected ==>
            ElectionOk(ids, t, s'.nodes, s'.h)
  {
    forall t | t in s'.h.elected ensures ElectionOk(ids, t, s'.nodes, s'.h) {
      assert ElectionOk(ids, t, s.nodes, s.h);
      var e := s.h.elected[t];
      forall v | v in e.voters ensures VotedFor(s'.h, v, t, e.leader) { assert VotedFor(s.h, v, t, e.leader); }
    }
  }

  lemma QuietGrants(ids: set<Id>, s: Cluster, s': Cluster, i: Id)
    requires Inv(ids, s) && Quiet(ids, s, s', i)
    ensures forall v, t {:trigger GrantOk(ids, v, t, s'.nodes[v], s'.h)} :: (v, t) in s'.h.grants ==>
            GrantOk(ids, v, t, s'.nodes[v], s'.h)
  {
    AcksOnLine(ids, s);
    assert NodeOk(ids, i, s.nodes[i], s.h);
    forall v, t | (v, t) in s'.h.grants ensures GrantOk(ids, v, t, s'.nodes[v], s'.h) {
      assert GrantOk(ids, v, t, s.nodes[v], s.h);
      GrantOkGrows(ids, v, t, s.nodes[v], s'.nodes[v], s.h, s'.h);
    }
  }

  lemma AckOkGrows(ids: set<Id>, v: Id, t: nat, n: Node, n': Node, h: History, h': History)
    requires Extends(h, h') && (v, t) in h.acks && AckOk(ids, v, t, n, h)
    requires h'.acks[(v, t)] == h.acks[(v, t)]
    requires n'.term >= n.term && Has(n'.log, n.log, |n.log|)
    ensures AckOk(ids, v, t, n', h')
  {
    forall k | 0 <= k <= h'.acks[(v, t)] ensures Kept(h', n'.log, t, n'.term, k) {
      assert Kept(h, n.log, t, n.term, k);
      KeptGrows(h, h', n.log, t, n.term, n'.term, k);
    }
  }

  lemma QuietAcks(ids: set<Id>, s: Cluster, s': Cluster, i: Id)
    requires Inv(ids, s) && Quiet(ids, s, s', i)
    ensures forall v, t {:trigger AckOk(ids, v, t, s'.nodes[v], s'.h)} :: (v, t) in s'.h.acks ==>
            AckOk(ids, v, t, s'.nodes[v], s'.h)
  {
    forall v, t | (v, t) in s'.h.acks ensures AckOk(ids, v, t, s'.nodes[v], s'.h) {
      assert AckOk(ids, v, t, s.nodes[v], s.h);
      AckOkGrows(ids, v, t, s.nodes[v], s'.nodes[v], s.h, s'.h);
    }
  }

  /** Steps that change no log, cast no vote and elect no one. */
  lemma QuietStep(ids: set<Id>, s: Cluster, s': Cluster, i: Id)
    requires Inv(ids, s) && Quiet(ids, s, s', i)
    requires NodeOk(ids, i, s'.nodes[i], s'.h)
    requires forall c {:trigger CommitOk(ids, c, s'.h)} :: c in s'.h.commits && c !in s.h.commits ==>
             CommitOk(ids, c, s'.h)
    requires forall m {:trigger MessageOk(ids, m, s'.h)} :: m in s'.msgs && m !in s.msgs ==> MessageOk(ids, m, s'.h)
    ensures Inv(ids, s')
  {
    Frame(ids, s, s', i);
    QuietElections(ids, s, s', i);
    QuietGrants(ids, s, s', i);
    QuietAcks(ids, s, s', i);
    forall t | t in s'.h.line ensures LineOk(t, s'.h.line) { assert LineOk(t, s.h.line); }
  }

  lemma BroadcastStep(ids: set<Id>, s: Cluster, i: Id)
    requires Inv(ids, s) && Enabled(ids, s, Broadcast(i))
    ensures Inv(ids, Do(ids, s, Broadcast(i)))
  {
    var s', n := Do(ids, s, Broadcast(i)), s.nodes[i];
    assert NodeOk(ids, i, n, s.h);
    assert ElectionOk(ids, n.term, s.nodes, s.h);
    forall m | m in s'.msgs && m !in s.msgs ensures MessageOk(ids, m, s'.h) {
      assert m.areq == RequestFor(n, i, m.to);
    }
    assert s'.nodes == s.nodes[i := n];
    QuietStep(ids, s, s', i);
  }

  lemma LoseQuorumStep(ids: set<Id>, s: Cluster, i: Id)
    requires Inv(ids, s) && Enabled(ids, s, LoseQuorum(i))
    ensures Inv(ids, Do(ids, s, LoseQuorum(i)))
  {
    assert NodeOk(ids, i, s.nodes[i], s.h);
    QuietStep(ids, s, Do(ids, s, LoseQuorum(i)), i);
  }

  lemma CrashStep(ids: set<Id>, s: Cluster, i: Id)
    requires Inv(ids, s) && Enabled(ids, s, CrashRestart(i))
    ensures Inv(ids, Do(ids, s, CrashRestart(i)))
  {
    assert NodeOk(ids, i, s.nodes[i], s.h);
    QuietStep(ids, s, Do(ids, s, CrashRestart(i)), i);
  }

  lemma ApplyIsPrefix(n: Node)
    requires n.applied <= n.commit <= |n.log| && n.output == n.log[..n.applied]
    ensures ApplyCommitted(n).output == n.log[..n.commit] && ApplyCommitted(n).applied == n.commit
  {
    assert n.log[..n.commit] == n.log[..n.applied] + n.log[n.applied..n.commit];
  }

  lemma ApplyStep(ids: set<Id>, s: Cluster, i: Id)
    requires Inv(ids, s) && Enabled(ids, s, Apply(i))
    ensures Inv(ids, Do(ids, s, Apply(i)))
  {
    var s', n := Do(ids, s, Apply(i)), s.nodes[i];
    assert NodeOk(ids, i, n, s.h);
    ApplyIsPrefix(n);
    QuietStep(ids, s, s', i);
  }

  lemma CallFailedStep(ids: set<Id>, s: Cluster, i: Id, peer: Id)
    requires Inv(ids, s) && Enabled(ids, s, AppendCallFailed(i, peer))
    ensures Inv(ids, Do(ids, s, AppendCallFailed(i, peer)))
  {
    assert NodeOk(ids, i, s.nodes[i], s.h);
    QuietStep(ids, s, Do(ids, s, AppendCallFailed(i, peer)), i);
  }

  /** A leader's count of its peers' confirmations is backed by a quorum of the cluster. */
  lemma CommitIsBacked(ids: set<Id>, s: Cluster, i: Id, n: Node, k: nat)
    requires Inv(ids, s) && i in ids && n.role == Leader && LeaderOk(ids, i, n, s.h)
    requires n.term == s.nodes[i].term && n.log == s.nodes[i].log
    requires 1 <= k <= |n.log| && Committable(n, ids - {i}, k)
    ensures CommitOk(ids, Commit(n.term, k, {i} + Replicated(n, ids - {i}, k)), s.h) && n.log == s.h.line[n.term]
  {
    assert ElectionOk(ids, n.term, s.nodes, s.h);
    var q := Replicated(n, ids - {i}, k);
    assert |{i} + q| == |q| + 1;
    assert |ids - {i}| == |ids| - 1;
    forall v | v in {i} + q ensures Acked(s.h, v, n.term, k) {}
  }

  /** A leader's commit index moves, everything else about it being in order. */
  lemma CommitStep(ids: set<Id>, s: Cluster, s': Cluster, i: Id, n: Node)
    requires Inv(ids, s) && i in ids
    requires NodeOk(ids, i, n, s.h) && n.role == Leader && n.votedFor == s.nodes[i].votedFor
    requires n.term == s.nodes[i].term && n.log == s.nodes[i].log && n.commit == s.nodes[i].commit
    requires s' == Put(s, i, AdvanceCommit(n, ids - {i})).(h :=
             Committed(s.h, i, ids - {i}, s.nodes[i], AdvanceCommit(n, ids - {i})))
    ensures Inv(ids, s')
  {
    var n' := AdvanceCommit(n, ids - {i});
    if n'.commit > n.commit {
      var c := Commit(n.term, n'.commit, {i} + Replicated(n, ids - {i}, n'.commit));
      assert Replicated(n', ids - {i}, n'.commit) == Replicated(n, ids - {i}, n'.commit);
      CommitIsBacked(ids, s, i, n, n'.commit);
      CommitOkGrows(ids, c, s.h, s'.h);
      CommitCovers(ids, i, n, n', s.h, s'.h, c);
    }
    QuietStep(ids, s, s', i);
  }

  lemma CommitCovers(ids: set<Id>, i: Id, n: Node, n': Node, h: History, h': History, c: Commit)
    requires NodeOk(ids, i, n, h) && h' == h.(commits := h.commits + {c}) && n.role == Leader
    requires n' == n.(commit := c.index) && n.commit < c.index <= |n.log| && c.term == n.term
    requires n.term in h.line && n.log == h.line[n.term]
    ensures NodeOk(ids, i, n', h')
  {
    NodeOkGrows(ids, i, n, h, h');
    assert CoveredBy(h', c, n'.log, n'.commit, n'.term);
  }

  lemma TickStep(ids: set<Id>, s: Cluster, i: Id)
    requires Inv(ids, s) && Enabled(ids, s, TickCommit(i))
    ensures Inv(ids, Do(ids, s, TickCommit(i)))
  {
    var n := s.nodes[i];
    assert NodeOk(ids, i, n, s.h);
    if n.role == Leader {
      CommitStep(ids, s, Do(ids, s, TickCommit(i)), i, n);
    } else {
      QuietStep(ids, s, Do(ids, s, TickCommit(i)), i);
    }
  }

  /** The leader's bookkeeping for a peer after a successful call. */
  function Noted(n: Node, from: Id, index: nat): Node
    requires from in n.matchIndex && from in n.nextIndex
  {
    n.(matchIndex := n.matchIndex[from := Max(n.matchIndex[from], index)],
       nextIndex := n.nextIndex[from := Max(n.nextIndex[from], index + 1)])
  }

  lemma NotedOk(ids: set<Id>, i: Id, n: Node, h: History, from: Id, index: nat)
    requires NodeOk(ids, i, n, h) && n.role == Leader && from in ids && from != i
    requires Acked(h, from, n.term, index) && index <= |n.log|
    ensures from in n.matchIndex && from in n.nextIndex && NodeOk(ids, i, Noted(n, from, index), h)
  {
    assert Noted(n, from, index).log == n.log;
  }

  lemma AppendReplyStep(ids: set<Id>, s: Cluster, m: Message)
    requires Inv(ids, s) && Enabled(ids, s, ReceiveAppendReply(m))
    ensures Inv(ids, Do(ids, s, ReceiveAppendReply(m)))
  {
    var s', i := Do(ids, s, ReceiveAppendReply(m)), m.to;
    var n, r := s.nodes[i], m.aresp;
    assert NodeOk(ids, i, n, s.h);
    assert MessageOk(ids, m, s.h);
    if r.term <= n.term && n.term == m.sentTerm && n.role == Leader && r.success {
      assert ElectionOk(ids, n.term, s.nodes, s.h);
      NotedOk(ids, i, n, s.h, m.from, r.matchIndex);
      CommitStep(ids, s, s', i, Noted(n, m.from, r.matchIndex));
    } else {
      ReplyQuietNode(ids, i, n, s.h, m.from, m.sentTerm, r);
      QuietStep(ids, s, s', i);
    }
  }

  lemma ReplyQuietNode(ids: set<Id>, i: Id, n: Node, h: History, from: Id, sent: nat, r: AppendReply)
    requires NodeOk(ids, i, n, h) && from in ids && from != i
    requires r.term > n.term || n.term != sent || n.role != Leader || !r.success
    ensures NodeOk(ids, i, HandleAppendReply(n, ids - {i}, from, sent, r), h)
  {
    var n' := HandleAppendReply(n, ids - {i}, from, sent, r);
    LogOkLater(n, n', h);
  }

  /** The handlers' answer to a higher or equal term that leaves the log alone. */
  lemma LogOkLater(n: Node, n': Node, h: History)
    requires LogOk(n, h) && n'.log == n.log && n'.term >= n.term
    requires n'.commit == n.commit && n'.applied == n.applied && n'.output == n.output
    ensures LogOk(n', h)
  {
    SettledGrows(h, h, n.log, n.commit, n.term, n'.term);
  }

  lemma VoteRefusedStep(ids: set<Id>, s: Cluster, m: Message)
    requires Inv(ids, s) && Enabled(ids, s, ReceiveVote(m)) && !HandleVote(s.nodes[m.to], m.vreq).1.granted
    ensures Inv(ids, Do(ids, s, ReceiveVote(m)))
  {
    var s' := Do(ids, s, ReceiveVote(m));
    assert NodeOk(ids, m.to, s.nodes[m.to], s.h);
    assert MessageOk(ids, m, s.h);
    LogOkLater(s.nodes[m.to], s'.nodes[m.to], s.h);
    QuietStep(ids, s, s', m.to);
  }

  lemma AppendRefusedStep(ids: set<Id>, s: Cluster, m: Message)
    requires Inv(ids, s) && Enabled(ids, s, ReceiveAppend(m)) && !HandleAppend(s.nodes[m.to], m.areq).1.success
    ensures Inv(ids, Do(ids, s, ReceiveAppend(m)))
  {
    var s' := Do(ids, s, ReceiveAppend(m));
    assert NodeOk(ids, m.to, s.nodes[m.to], s.h);
    assert MessageOk(ids, m, s.h);
    LogOkLater(s.nodes[m.to], s'.nodes[m.to], s.h);
    QuietStep(ids, s, s', m.to);
  }

  lemma VoteCountedStep(ids: set<Id>, s: Cluster, m: Message)
    requires Inv(ids, s) && Enabled(ids, s, ReceiveVoteReply(m))
    requires Do(ids, s, ReceiveVoteReply(m)).nodes[m.to].role != Leader || s.nodes[m.to].role == Leader
    ensures Inv(ids, Do(ids, s, ReceiveVoteReply(m)))
  {
    var s' := Do(ids, s, ReceiveVoteReply(m));
    assert NodeOk(ids, m.to, s.nodes[m.to], s.h);
    assert MessageOk(ids, m, s.h);
    LogOkLater(s.nodes[m.to], s'.nodes[m.to], s.h);
    QuietStep(ids, s, s', m.to);
  }
}
