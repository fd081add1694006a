/** What holds of every reachable cluster, and its consequence that a committed entry is in the
    log of every later leader (section 5.4 of the Raft paper). */
module RaftInvariant {
  import opened RaftLog
  import opened ByteStrings
  import opened RaftNode
  import opened RaftProtocol

  ghost predicate Quorum(ids: set<Id>, q: set<Id>) {
    q <= ids && 2 * |q| > |ids|
  }

  /** Up to entry i, the log is the log that the leader of entry i's term had. */
  ghost predicate OnLine(log: seq<Entry>, i: nat, line: map<nat, seq<Entry>>)
    requires i < |log|
  {
    log[i].term in line && Has(log, line[log[i].term], i + 1)
  }

  ghost predicate OnLines(log: seq<Entry>, line: map<nat, seq<Entry>>) {
    Indexed(log) && forall i {:trigger OnLine(log, i, line)} :: 0 <= i < |log| ==> OnLine(log, i, line)
  }

  ghost predicate TermsAtMost(log: seq<Entry>, t: int) {
    forall i :: 0 <= i < |log| ==> log[i].term <= t
  }

  ghost predicate LineOk(t: nat, line: map<nat, seq<Entry>>)
    requires t in line
  {
    t >= 1 && OnLines(line[t], line) && TermsAtMost(line[t], t) && |line[t]| > 0 && LastTerm(line[t]) == t
  }

  /** Some leader elected after term t, up to term hi, started without the first k entries of line t. */
  ghost predicate Broken(h: History, t: nat, hi: int, k: nat)
    requires t in h.line
  {
    exists u :: u in h.elected && t < u <= hi && !Has(h.elected[u].log, h.line[t], k)
  }

  ghost predicate Kept(h: History, log: seq<Entry>, t: nat, hi: int, k: nat)
    requires t in h.line
  {
    Has(log, h.line[t], k) || Broken(h, t, hi, k)
  }

  /** A commit of a term up to t covers the first k entries of the log. */
  ghost predicate CoveredBy(h: History, c: Commit, log: seq<Entry>, k: nat, t: nat) {
    c.term <= t && c.term in h.line && k <= c.index && Has(log, h.line[c.term], k)
  }

  ghost predicate Settled(h: History, log: seq<Entry>, k: nat, t: nat) {
    k == 0 || exists c :: c in h.commits && CoveredBy(h, c, log, k, t)
  }

  ghost predicate Acked(h: History, p: Id, t: nat, k: nat) {
    (p, t) in h.acks && k <= h.acks[(p, t)]
  }

  ghost predicate VotedFor(h: History, v: Id, t: nat, candidate: Id) {
    (v, t) in h.grants && h.grants[(v, t)].candidate == candidate
  }

  ghost predicate LeaderOk(ids: set<Id>, i: Id, n: Node, h: History) {
    n.role == Leader ==>
      && n.term in h.elected && h.elected[n.term].leader == i && Acked(h, i, n.term, |n.log|)
      && forall p :: p in ids && p != i ==>
           && p in n.nextIndex && 1 <= n.nextIndex[p] <= |n.log| + 1
           && p in n.matchIndex && (n.matchIndex[p] == 0 || Acked(h, p, n.term, n.matchIndex[p]))
  }

  ghost predicate CandidateOk(ids: set<Id>, i: Id, n: Node, h: History) {
    n.role == Candidate ==>
      && VotedFor(h, i, n.term, i) && h.grants[(i, n.term)].log == n.log
      && n.votes <= ids && forall v {:trigger VotedFor(h, v, n.term, i)} :: v in n.votes ==> VotedFor(h, v, n.term, i)
  }

  ghost predicate LogOk(n: Node, h: History) {
    && OnLines(n.log, h.line) && TermsAtMost(n.log, n.term)
    && n.commit <= |n.log| && Settled(h, n.log, n.commit, n.term)
    && n.applied <= n.commit && n.output == n.log[..n.applied]
  }

  ghost predicate NodeOk(ids: set<Id>, i: Id, n: Node, h: History) {
    LogOk(n, h) && CandidateOk(ids, i, n, h) && LeaderOk(ids, i, n, h)
  }

  ghost predicate ElectionOk(ids: set<Id>, t: nat, nodes: map<Id, Node>, h: History)
    requires t in h.elected && nodes.Keys == ids
  {
    var e := h.elected[t];
    && t in h.line && e.leader in ids && Quorum(ids, e.voters)
    && VotedFor(h, e.leader, t, e.leader) && (forall v :: v in e.voters ==> VotedFor(h, v, t, e.leader))
    && |e.log| == |h.grants[(e.leader, t)].log| + 1 && Has(e.log, h.grants[(e.leader, t)].log, |e.log| - 1)
    && Has(h.line[t], e.log, |e.log|)
    && nodes[e.leader].term >= t
    && (nodes[e.leader].term == t ==> nodes[e.leader].log == h.line[t] && nodes[e.leader].role != Candidate)
  }

  ghost predicate KeptAtVote(h: History, v: Id, t: nat, u: nat, k: nat)
    requires (v, t) in h.grants
  {
    u in h.line && Kept(h, h.grants[(v, t)].log, u, t - 1, k)
  }

  /** Everything v confirmed before voting in term t was still in its log when it voted, unless an
      intervening leader had lost it already. */
  ghost predicate VoteKeeps(h: History, v: Id, t: nat)
    requires (v, t) in h.grants
  {
    forall u: nat, k: nat {:trigger KeptAtVote(h, v, t, u, k)} ::
      u < t && Acked(h, v, u, k) ==> KeptAtVote(h, v, t, u, k)
  }

  ghost predicate GrantOk(ids: set<Id>, v: Id, t: nat, n: Node, h: History)
    requires (v, t) in h.grants
  {
    var g := h.grants[(v, t)];
    && g.candidate in ids
    && (n.term == t ==>
          n.votedFor == Some(g.candidate) || (n.votedFor == None && t in h.elected && h.elected[t].leader == v))
    && VotedFor(h, g.candidate, t, g.candidate)
    && UpToDate(|h.grants[(g.candidate, t)].log|, LastTerm(h.grants[(g.candidate, t)].log), g.log)
    && OnLines(g.log, h.line)
    && (v == g.candidate ==> TermsAtMost(g.log, t - 1))
    && (t !in h.elected || v in h.elected[t].voters ==> VoteKeeps(h, v, t))
  }

  ghost predicate AckOk(ids: set<Id>, v: Id, t: nat, n: Node, h: History)
    requires (v, t) in h.acks
  {
    && v in ids && t in h.line && h.acks[(v, t)] <= |h.line[t]| && n.term >= t
    && forall k {:trigger Kept(h, n.log, t, n.term, k)} :: 0 <= k <= h.acks[(v, t)] ==> Kept(h, n.log, t, n.term, k)
  }

  ghost predicate CommitOk(ids: set<Id>, c: Commit, h: History) {
    && c.term in h.line && 1 <= c.index <= |h.line[c.term]| && TermAt(h.line[c.term], c.index) == c.term
    && Quorum(ids, c.quorum) && forall v {:trigger Acked(h, v, c.term, c.index)} :: v in c.quorum ==>
       Acked(h, v, c.term, c.index)
  }

  ghost predicate AppendReqOk(r: AppendRequest, from: Id, h: History) {
    && r.term in h.elected && r.term in h.line && h.elected[r.term].leader == from == r.leader
    && var line := h.line[r.term];
    && var m := r.prevIndex + |r.entries|;
    && m <= |line| && r.entries == line[r.prevIndex..m] && r.prevTerm == TermAt(line, r.prevIndex)
    && r.leaderCommit <= m && Settled(h, line, r.leaderCommit, r.term)
  }

  ghost predicate MessageOk(ids: set<Id>, m: Message, h: History) {
    && m.from in ids && m.to in ids && m.from != m.to
    && match m
       case VoteReq(from, to, r) =>
         && r.candidate == from && VotedFor(h, from, r.term, from)
         && r.lastIndex == |h.grants[(from, r.term)].log| && r.lastTerm == LastTerm(h.grants[(from, r.term)].log)
       case VoteResp(from, to, sent, r) => r.granted ==> r.term == sent && VotedFor(h, from, sent, to)
       case AppendReq(from, to, r) => AppendReqOk(r, from, h)
       case AppendResp(from, to, sent, r) => r.success ==>
           Acked(h, from, sent, r.matchIndex) && sent in h.line && r.matchIndex <= |h.line[sent]|
  }

  ghost predicate HistoryOk(ids: set<Id>, nodes: map<Id, Node>, h: History)
    requires nodes.Keys == ids
  {
    && h.elected.Keys == h.line.Keys
    && (forall t {:trigger LineOk(t, h.line)} :: t in h.line ==> LineOk(t, h.line))
    && (forall t {:trigger ElectionOk(ids, t, nodes, h)} :: t in h.elected ==> ElectionOk(ids, t, nodes, h))
    && (forall v, t :: (v, t) in h.grants ==> v in ids && t >= 1 && nodes[v].term >= t)
    && (forall v, t {:trigger GrantOk(ids, v, t, nodes[v], h)} :: (v, t) in h.grants ==>
        GrantOk(ids, v, t, nodes[v], h))
    && (forall v, t :: (v, t) in h.acks ==> v in ids)
    && (forall v, t {:trigger AckOk(ids, v, t, nodes[v], h)} :: (v, t) in h.acks ==> AckOk(ids, v, t, nodes[v], h))
    && (forall c {:trigger CommitOk(ids, c, h)} :: c in h.commits ==> CommitOk(ids, c, h))
  }

  ghost predicate Inv(ids: set<Id>, s: Cluster) {
    && s.nodes.Keys == ids
    && HistoryOk(ids, s.nodes, s.h)
    && (forall i {:trigger NodeOk(ids, i, s.nodes[i], s.h)} :: i in ids ==> NodeOk(ids, i, s.nodes[i], s.h))
    && (forall m {:trigger MessageOk(ids, m, s.h)} :: m in s.msgs ==> MessageOk(ids, m, s.h))
  }

  // ---- Consequences of the invariant ----

  lemma QuorumsMeet(ids: set<Id>, a: set<Id>, b: set<Id>) returns (x: Id)
    requires Quorum(ids, a) && Quorum(ids, b)
    ensures x in a && x in b
  {
    assert a + b <= ids;
    Subset(a + b, ids);
    assert |a + b| + |a * b| == |a| + |b|;
    assert a * b != {} by { assert |a * b| > 0; }
    x :| x in a * b;
  }

  lemma {:induction false} Subset(a: set<Id>, b: set<Id>)
    requires a <= b
    ensures |a| <= |b|
  {
    if a != {} {
      var x :| x in a;
      Subset(a - {x}, b - {x});
    }
  }

  /** Two logs on the lines match: same index and term mean the same prefix (section 5.3). */
  lemma LinesMatch(a: seq<Entry>, b: seq<Entry>, line: map<nat, seq<Entry>>)
    requires OnLines(a, line) && OnLines(b, line)
    ensures Matching(a, b)
  {
    forall i | 0 <= i < |a| && i < |b| && a[i].term == b[i].term ensures Has(a, b, i + 1) {
      assert OnLine(a, i, line) && OnLine(b, i, line);
    }
  }

  /** Terms never decrease along a log. */
  lemma TermsSorted(log: seq<Entry>, line: map<nat, seq<Entry>>, i: nat, j: nat)
    requires OnLines(log, line) && (forall t {:trigger LineOk(t, line)} :: t in line ==> LineOk(t, line))
    requires i <= j < |log|
    ensures log[i].term <= log[j].term
  {
    assert OnLine(log, j, line);
    assert LineOk(log[j].term, line);
  }

  /** Leader completeness: what a leader of term c.term counted as committed is at the start of
      the log of every leader elected in a later term. By induction on that later term. */
  lemma {:induction false} LeaderCompleteness(ids: set<Id>, s: Cluster, c: Commit, u: nat)
    requires Inv(ids, s) && c in s.h.commits && u in s.h.elected && c.term < u
    ensures c.term in s.h.line && Has(s.h.elected[u].log, s.h.line[c.term], c.index)
    decreases u
  {
    var h, t, k := s.h, c.term, c.index;
    assert CommitOk(ids, c, h);
    assert ElectionOk(ids, u, s.nodes, h);
    var e := h.elected[u];
    var w := QuorumsMeet(ids, c.quorum, e.voters);
    assert Acked(h, w, t, k) && VotedFor(h, w, u, e.leader);
    assert GrantOk(ids, w, u, s.nodes[w], h) && GrantOk(ids, e.leader, u, s.nodes[e.leader], h);
    var voterLog, log := h.grants[(w, u)].log, h.grants[(e.leader, u)].log;
    forall u' | u' in h.elected && t < u' <= u - 1 ensures Has(h.elected[u'].log, h.line[t], k) {
      LeaderCompleteness(ids, s, c, u');
    }
    assert VoteKeeps(h, w, u);
    assert KeptAtVote(h, w, u, t, k);
    assert Has(voterLog, h.line[t], k);
    TermsSorted(voterLog, h.line, k - 1, |voterLog| - 1);
    UpToDateHas(s, ids, c, u, log, voterLog);
  }

  /** A log that wins against one that has the committed prefix has it too. */
  lemma UpToDateHas(s: Cluster, ids: set<Id>, c: Commit, u: nat, log: seq<Entry>, voterLog: seq<Entry>)
    requires Inv(ids, s) && c in s.h.commits && CommitOk(ids, c, s.h)
    requires forall u' :: u' in s.h.elected && c.term < u' < u ==> Has(s.h.elected[u'].log, s.h.line[c.term], c.index)
    requires OnLines(log, s.h.line) && TermsAtMost(log, u - 1)
    requires Has(voterLog, s.h.line[c.term], c.index) && LastTerm(voterLog) >= c.term
    requires UpToDate(|log|, LastTerm(log), voterLog)
    ensures Has(log, s.h.line[c.term], c.index)
  {
    var h, t := s.h, c.term;
    var last := LastTerm(log);
    assert LineOk(t, h.line);
    assert |log| > 0;
    assert OnLine(log, |log| - 1, h.line);
    if last > t {
      assert ElectionOk(ids, last, s.nodes, h);
      assert Has(h.line[last], h.line[t], c.index);
    }
  }

  /** Whatever two leaders counted as committed agrees where both reach. */
  lemma CommitsAgree(ids: set<Id>, s: Cluster, c: Commit, d: Commit, i: nat)
    requires Inv(ids, s) && c in s.h.commits && d in s.h.commits && i < c.index && i < d.index
    ensures c.term in s.h.line && d.term in s.h.line
    ensures i < |s.h.line[c.term]| && i < |s.h.line[d.term]| && s.h.line[c.term][i] == s.h.line[d.term][i]
  {
    assert CommitOk(ids, c, s.h) && CommitOk(ids, d, s.h);
    if c.term < d.term {
      LeaderCompleteness(ids, s, c, d.term);
      assert ElectionOk(ids, d.term, s.nodes, s.h);
    } else if d.term < c.term {
      LeaderCompleteness(ids, s, d, c.term);
      assert ElectionOk(ids, c.term, s.nodes, s.h);
    }
  }

  /** A settled prefix is on the line of every leader of the same or a later term. */
  lemma SettledOnLine(ids: set<Id>, s: Cluster, log: seq<Entry>, k: nat, t: nat, u: nat)
    requires Inv(ids, s) && Settled(s.h, log, k, t) && u in s.h.elected && t <= u && k <= |log|
    ensures u in s.h.line && Has(s.h.line[u], log, k)
  {
    assert ElectionOk(ids, u, s.nodes, s.h);
    if k > 0 {
      var c :| c in s.h.commits && CoveredBy(s.h, c, log, k, t);
      if c.term < u { LeaderCompleteness(ids, s, c, u); }
    }
  }
}
