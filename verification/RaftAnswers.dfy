/** What each handler of a node answers and does, over the fields of node and message, and what that means
    in every run. */
module RaftAnswers {
  import opened ByteStrings
  import opened RaftLog
  import opened RaftNode
  import opened RaftProtocol
  import opened RaftInvariant
  import RaftSafety
  import RaftSteps

  // ---- Votes ----

  /** A vote is granted exactly if the request is not from an older term, the vote of its term is free or
      already the candidate's, and the candidate's log is not behind. */
  lemma VoteGrantedIff(n: Node, req: VoteRequest)
    ensures var (n', r) := HandleVote(n, req);
            && (r.granted <==>
                  && req.term >= n.term
                  && (req.term > n.term || n.votedFor == None || n.votedFor == Some(req.candidate))
                  && AtLeast((req.lastTerm, req.lastIndex), LastOf(n.log)))
            && r.term == n'.term == Max(n.term, req.term) && n'.log == n.log && n'.commit == n.commit
            && n'.votedFor ==
                 (if r.granted then Some(req.candidate) else if req.term > n.term then None else n.votedFor)
            && (req.term > n.term ==> n'.role == Follower && n'.leader == None)
            && (req.term <= n.term ==> n'.role == n.role && n'.leader == n.leader)
  {}

  lemma AfterNext(ids: set<Id>, run: seq<Step>, step: Step)
    requires Enabled(ids, After(ids, run), step)
    ensures After(ids, run + [step]) == Do(ids, After(ids, run), step)
  {
    assert (run + [step])[..|run|] == run;
  }

  /** The request a candidate is waiting to have answered names its own log. */
  lemma RequestNamesLog(ids: set<Id>, s: Cluster, m: Message)
    requires Inv(ids, s) && m in s.msgs && m.VoteReq? && m.from in s.nodes && s.nodes[m.from].role == Candidate
    requires s.nodes[m.from].term == m.vreq.term
    ensures m.to in ids && m.vreq.candidate == m.from && m.vreq.lastIndex == |s.nodes[m.from].log|
    ensures m.vreq.lastTerm == LastOf(s.nodes[m.from].log).0
  {
    assert MessageOk(ids, m, s.h) && NodeOk(ids, m.from, s.nodes[m.from], s.h);
  }

  /** In every run: a request in flight from a node that is still candidate in its term, at a voter of a
      lower term whose log is not ahead, is granted on delivery. */
  lemma NotAheadGrants(ids: set<Id>, run: seq<Step>, m: Message)
    requires m in After(ids, run).msgs && m.VoteReq?
    requires var s := After(ids, run);
             && m.from in s.nodes && m.to in s.nodes && s.nodes[m.from].role == Candidate
             && s.nodes[m.from].term == m.vreq.term && s.nodes[m.to].term < m.vreq.term
             && AtLeast(LastOf(s.nodes[m.from].log), LastOf(s.nodes[m.to].log))
    ensures var s := After(ids, run + [ReceiveVote(m)]);
            && VoteResp(m.to, m.from, m.vreq.term, VoteReply(m.vreq.term, true)) in s.msgs
            && m.to in s.nodes && s.nodes[m.to].term == m.vreq.term && s.nodes[m.to].votedFor == Some(m.from)
  {
    var s := After(ids, run);
    RaftSafety.AlwaysInv(ids, run);
    RequestNamesLog(ids, s, m);
    VoteGrantedIff(s.nodes[m.to], m.vreq);
    AfterNext(ids, run, ReceiveVote(m));
  }

  // ---- Counting ----

  /** More than half of the cluster, this node counted, is what the threshold asks for. */
  lemma EnoughIff(ids: set<Id>, i: Id, q: set<Id>)
    requires i in ids && q <= ids
    ensures |q| >= Majority(ids - {i}) <==> Quorum(ids, q)
  {
    assert ids == ids - {i} + {i};
  }

  lemma HoldersIff(ids: set<Id>, i: Id, n: Node, k: nat)
    requires i in ids
    ensures |Replicated(n, ids - {i}, k)| + 1 >= Majority(ids - {i}) <==> Quorum(ids, {i} + Replicated(n, ids - {i}, k))
  {
    var q := Replicated(n, ids - {i}, k);
    assert |{i} + q| == |q| + 1;
    EnoughIff(ids, i, {i} + q);
  }

  /** The nodes a leader knows to hold its log up to index k, itself among them. */
  function Holders(ids: set<Id>, i: Id, n: Node, k: nat): set<Id> {
    {i} + set p | p in ids && p != i && p in n.matchIndex && n.matchIndex[p] >= k
  }

  ghost predicate Held(ids: set<Id>, i: Id, n: Node, k: nat) {
    1 <= k <= |n.log| && n.log[k - 1].term == n.term && Quorum(ids, Holders(ids, i, n, k))
  }

  /** An index of the log is committable exactly if its entry is of the leader's term and a quorum holds
      it. */
  lemma CommittableIff(ids: set<Id>, i: Id, n: Node, k: nat)
    requires i in ids && 1 <= k <= |n.log|
    ensures Committable(n, ids - {i}, k) <==> Held(ids, i, n, k)
  {
    HoldersIff(ids, i, n, k);
    assert {i} + Replicated(n, ids - {i}, k) == Holders(ids, i, n, k);
  }

  /** A leader's commit index moves to the highest index of its term that a quorum holds, if that is
      further on. */
  lemma CommitsHighest(ids: set<Id>, i: Id, n: Node)
    requires i in ids && n.role == Leader
    ensures var n' := AdvanceCommit(n, ids - {i});
            && n' == n.(commit := n'.commit) && n'.commit >= n.commit
            && (n'.commit > n.commit ==> Held(ids, i, n, n'.commit))
            && (forall k: nat :: Held(ids, i, n, k) ==> k <= n'.commit)
  {
    var c := AdvanceCommit(n, ids - {i}).commit;
    forall k | 1 <= k <= |n.log|
      ensures Committable(n, ids - {i}, k) <==> Held(ids, i, n, k)
    { CommittableIff(ids, i, n, k); }
  }

  /** In every run. */
  lemma TickCommitsHighest(ids: set<Id>, run: seq<Step>, i: Id)
    requires i in After(ids, run).nodes && After(ids, run).nodes[i].role == Leader
    ensures i in After(ids, run + [TickCommit(i)]).nodes
    ensures var n, n' := After(ids, run).nodes[i], After(ids, run + [TickCommit(i)]).nodes[i];
            && n' == n.(commit := n'.commit) && n'.commit >= n.commit
            && (n'.commit > n.commit ==> Held(ids, i, n, n'.commit))
            && (forall k: nat :: Held(ids, i, n, k) ==> k <= n'.commit)
  {
    RaftSafety.AlwaysInv(ids, run);
    AfterNext(ids, run, TickCommit(i));
    CommitsHighest(ids, i, After(ids, run).nodes[i]);
  }

  // ---- Elections ----

  /** Running for leader: the next term, its own vote, and its last entry in every request. */
  ghost predicate Runs(ids: set<Id>, s: Cluster, s': Cluster, i: Id)
    requires i in s.nodes && i in s'.nodes
  {
    var n, n' := s.nodes[i], s'.nodes[i];
    && n'.role == Candidate && n'.term == n.term + 1 && n'.votedFor == Some(i) && n'.votes == {i}
    && n'.log == n.log && n'.leader == None
    && forall p :: p in ids && p != i ==>
         VoteReq(i, p, VoteRequest(n.term + 1, i, |n.log|, LastOf(n.log).0)) in s'.msgs
  }

  lemma TimeoutRuns(ids: set<Id>, s: Cluster, i: Id)
    requires Enabled(ids, s, ElectionTimeout(i))
    ensures var s' := Do(ids, s, ElectionTimeout(i)); i in s'.nodes && Runs(ids, s, s', i)
  {
    var n := s.nodes[i];
    assert LastTerm(n.log) == LastOf(n.log).0;
    forall p | p in ids && p != i
      ensures VoteReq(i, p, VoteRequest(n.term + 1, i, |n.log|, LastOf(n.log).0)) in Do(ids, s, ElectionTimeout(i)).msgs
    {
      assert p in ids - {i};
    }
  }

  lemma CandidateRuns(ids: set<Id>, run: seq<Step>, i: Id)
    requires i in After(ids, run).nodes && After(ids, run).nodes[i].role != Leader
    ensures var s, s' := After(ids, run), After(ids, run + [ElectionTimeout(i)]);
            i in s'.nodes && Runs(ids, s, s', i)
  {
    RaftSafety.AlwaysInv(ids, run);
    TimeoutRuns(ids, After(ids, run), i);
    AfterNext(ids, run, ElectionTimeout(i));
  }

  /** What a candidate or anyone else does with the answer to a vote request. */
  lemma TallyIs(ids: set<Id>, i: Id, n: Node, from: Id, sentTerm: nat, resp: VoteReply)
    requires i in ids && from in ids && n.votes <= ids
    ensures var n' := HandleVoteReply(n, i, ids - {i}, from, sentTerm, resp);
            var counted := resp.term <= n.term == sentTerm && n.role == Candidate &&
                           (if resp.term == 0 then resp.granted else resp.term == sentTerm);
            var votes := if resp.granted then n.votes + {from} else n.votes;
            if resp.term > n.term then
              n' == n.(term := resp.term, votedFor := None, role := Follower, leader := None)
            else if !counted then n' == n
            else if Quorum(ids, votes) then
              && n'.role == Leader && n'.leader == Some(i) && n'.term == n.term && n'.votedFor == n.votedFor
              && n'.log == n.log + [Entry(|n.log| + 1, n.term, Noop, [])] && n'.commit == n.commit
              && (forall p :: p in ids && p != i ==>
                    && p in n'.nextIndex && n'.nextIndex[p] == |n.log| + 1
                    && p in n'.matchIndex && n'.matchIndex[p] == 0)
            else n' == n.(votes := votes)
  {
    EnoughIff(ids, i, if resp.granted then n.votes + {from} else n.votes);
  }

  /** In every run: a candidate that is told of a vote wins exactly if that makes it a quorum. */
  lemma WinsIff(ids: set<Id>, run: seq<Step>, m: Message)
    requires m in After(ids, run).msgs && m.VoteResp? && m.vresp.granted && m.to in After(ids, run).nodes
    requires After(ids, run).nodes[m.to].role == Candidate && After(ids, run).nodes[m.to].term == m.sentTerm
    ensures m.to in After(ids, run + [ReceiveVoteReply(m)]).nodes
    ensures var n, n' := After(ids, run).nodes[m.to], After(ids, run + [ReceiveVoteReply(m)]).nodes[m.to];
            && (n'.role == Leader <==> Quorum(ids, n.votes + {m.from}))
            && (n'.role != Leader ==> n' == n.(votes := n.votes + {m.from}))
  {
    var s := After(ids, run);
    RaftSafety.AlwaysInv(ids, run);
    assert MessageOk(ids, m, s.h) && NodeOk(ids, m.to, s.nodes[m.to], s.h);
    AfterNext(ids, run, ReceiveVoteReply(m));
    TallyIs(ids, m.to, s.nodes[m.to], m.from, m.sentTerm, m.vresp);
  }

  // ---- Replication ----

  /** An append is accepted exactly if it is welcome; then the follower knows its leader, has merged the
      entries, follows the leader's commit index as far as its log goes and confirms the last entry sent. */
  lemma AppendIs(n: Node, req: AppendRequest)
    ensures var (n', r) := HandleAppend(n, req);
            && (r.success <==> Welcome(n, req)) && r.term == n'.term == Max(n.term, req.term)
            && (req.term >= n.term ==> n'.role == Follower && n'.leader == Some(req.leader))
            && n'.votedFor == (if req.term > n.term then None else n.votedFor)
            && (if r.success then
                  && n'.log == Merge(n.log, req.entries) && r.matchIndex == req.prevIndex + |req.entries|
                  && n'.commit == Max(n.commit, Min(req.leaderCommit, |n'.log|))
                else n'.log == n.log && n'.commit == n.commit)
  {}

  /** What a leader learns from an answer: one step back after a rejection, and after a confirmation that
      the peer holds that much and what to send next. */
  lemma ReplyIs(ids: set<Id>, i: Id, n: Node, from: Id, sentTerm: nat, resp: AppendReply)
    requires i in ids && n.role == Leader && resp.term <= n.term == sentTerm
    requires from in n.nextIndex && from in n.matchIndex && n.nextIndex[from] >= 1
    ensures var n' := HandleAppendReply(n, ids - {i}, from, sentTerm, resp);
            && n'.role == Leader && n'.term == n.term && n'.log == n.log
            && n'.nextIndex.Keys == n.nextIndex.Keys && n'.matchIndex.Keys == n.matchIndex.Keys
            && (forall p :: p in n.nextIndex && p != from ==> n'.nextIndex[p] == n.nextIndex[p])
            && (forall p :: p in n.matchIndex && p != from ==> n'.matchIndex[p] == n.matchIndex[p])
            && (if resp.success then
                  && n'.matchIndex[from] == Max(n.matchIndex[from], resp.matchIndex)
                  && n'.nextIndex[from] == Max(n.nextIndex[from], resp.matchIndex + 1)
                  && (forall k: nat :: Held(ids, i, n', k) ==> k <= n'.commit)
                else
                  && n'.matchIndex == n.matchIndex && n'.commit == n.commit
                  && n'.nextIndex[from] == if n.nextIndex[from] == 1 then 1 else n.nextIndex[from] - 1)
  {
    if resp.success {
      var m := n.(matchIndex := n.matchIndex[from := Max(n.matchIndex[from], resp.matchIndex)],
                  nextIndex := n.nextIndex[from := Max(n.nextIndex[from], resp.matchIndex + 1)]);
      CommitsHighest(ids, i, m);
      forall k: nat ensures Held(ids, i, m.(commit := AdvanceCommit(m, ids - {i}).commit), k) <==> Held(ids, i, m, k) {
        assert Holders(ids, i, m.(commit := AdvanceCommit(m, ids - {i}).commit), k) == Holders(ids, i, m, k);
      }
    }
  }

  /** What is shipped to p: everything from nextIndex[p] on, behind the entry before it. */
  lemma ShippedIs(n: Node, i: Id, p: Id)
    requires p in n.nextIndex && 1 <= n.nextIndex[p] <= |n.log| + 1
    ensures var req := RequestFor(n, i, p);
            && req.term == n.term && req.leader == i && req.leaderCommit == n.commit
            && req.prevIndex == n.nextIndex[p] - 1 && n.log == n.log[..req.prevIndex] + req.entries
            && (req.prevIndex > 0 ==> req.prevTerm == n.log[req.prevIndex - 1].term)
  {}

  /** A proposal goes to the end of the leader's log with its term, kind and payload. */
  lemma ProposedIs(ids: set<Id>, run: seq<Step>, i: Id, kind: EntryKind, payload: Bytes)
    requires i in After(ids, run).nodes && After(ids, run).nodes[i].role == Leader
    ensures i in After(ids, run + [ClientProposes(i, kind, payload)]).nodes
    ensures var n, n' := After(ids, run).nodes[i], After(ids, run + [ClientProposes(i, kind, payload)]).nodes[i];
            n' == n.(log := n.log + [Entry(|n.log| + 1, n.term, kind, payload)])
  {
    RaftSafety.AlwaysInv(ids, run);
    AfterNext(ids, run, ClientProposes(i, kind, payload));
  }

  // ---- Whom a node takes for the leader ----

  /** The leader a node names is the one elected in its term, and a leader names itself. */
  ghost predicate NamesLeader(i: Id, n: Node, h: History) {
    && (n.role == Leader ==> n.leader == Some(i))
    && (n.leader.Some? ==> n.term in h.elected && h.elected[n.term].leader == n.leader.value)
  }

  ghost predicate AllName(ids: set<Id>, s: Cluster) {
    && s.nodes.Keys == ids
    && forall i {:trigger NamesLeader(i, s.nodes[i], s.h)} :: i in ids ==> NamesLeader(i, s.nodes[i], s.h)
  }

  lemma NamesStay(i: Id, n: Node, h: History, h': History)
    requires NamesLeader(i, n, h) && forall t :: t in h.elected ==> t in h'.elected && h'.elected[t] == h.elected[t]
    ensures NamesLeader(i, n, h')
  {}

  /** A node that did not hear from a leader and did not win keeps the name or forgets it. */
  lemma MoveNames(ids: set<Id>, s: Cluster, step: Step, i: Id)
    requires Inv(ids, s) && Enabled(ids, s, step) && i in ids && NamesLeader(i, s.nodes[i], s.h)
    requires !step.ReceiveVoteReply? && !step.ReceiveAppend?
    ensures i in Do(ids, s, step).nodes && NamesLeader(i, Do(ids, s, step).nodes[i], s.h)
  {}

  lemma AppendNames(ids: set<Id>, s: Cluster, m: Message, i: Id)
    requires Inv(ids, s) && Enabled(ids, s, ReceiveAppend(m)) && i in ids && NamesLeader(i, s.nodes[i], s.h)
    ensures i in Do(ids, s, ReceiveAppend(m)).nodes && NamesLeader(i, Do(ids, s, ReceiveAppend(m)).nodes[i], s.h)
  {
    assert MessageOk(ids, m, s.h);
    AppendIs(s.nodes[m.to], m.areq);
  }

  lemma WinNames(ids: set<Id>, s: Cluster, m: Message, i: Id)
    requires Inv(ids, s) && Enabled(ids, s, ReceiveVoteReply(m)) && i in ids && NamesLeader(i, s.nodes[i], s.h)
    requires RaftSteps.Extends(s.h, Do(ids, s, ReceiveVoteReply(m)).h)
    ensures i in Do(ids, s, ReceiveVoteReply(m)).nodes
    ensures NamesLeader(i, Do(ids, s, ReceiveVoteReply(m)).nodes[i], Do(ids, s, ReceiveVoteReply(m)).h)
  {}

  lemma StepNames(ids: set<Id>, s: Cluster, step: Step)
    requires Inv(ids, s) && Enabled(ids, s, step) && AllName(ids, s)
    ensures AllName(ids, Do(ids, s, step))
  {
    var s' := Do(ids, s, step);
    RaftSafety.StepExtends(ids, s, step);
    forall i | i in ids ensures i in s'.nodes && NamesLeader(i, s'.nodes[i], s'.h) {
      if step.ReceiveVoteReply? {
        WinNames(ids, s, step.m, i);
      } else {
        if step.ReceiveAppend? { AppendNames(ids, s, step.m, i); } else { MoveNames(ids, s, step, i); }
        NamesStay(i, s'.nodes[i], s.h, s'.h);
      }
    }
  }

  /** In every run the leader a node names is the one that won its term. */
  lemma {:induction false} KnownLeaderIsElected(ids: set<Id>, run: seq<Step>)
    ensures AllName(ids, After(ids, run))
  {
    if run != [] {
      var s, step := After(ids, run[..|run| - 1]), run[|run| - 1];
      KnownLeaderIsElected(ids, run[..|run| - 1]);
      RaftSafety.AlwaysInv(ids, run[..|run| - 1]);
      if Enabled(ids, s, step) { StepNames(ids, s, step); }
    }
  }
}
