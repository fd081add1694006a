/** A cluster of Raft nodes and the messages between them, as a state machine. Messages stay in
    a set, so any of them may be lost, delayed or delivered more than once. Nodes crash and
    restart at any time. The history is written by the steps and read by none. */
module RaftProtocol {
  import opened ByteStrings
  import opened RaftLog
  import opened RaftNode

  datatype Message =
    | VoteReq(from: Id, to: Id, vreq: VoteRequest)
    | VoteResp(from: Id, to: Id, sentTerm: nat, vresp: VoteReply)
    | AppendReq(from: Id, to: Id, areq: AppendRequest)
    | AppendResp(from: Id, to: Id, sentTerm: nat, aresp: AppendReply)

  /** A vote: for whom, and the voter's log when it was first cast. */
  datatype Grant = Grant(candidate: Id, log: seq<Entry>)
  /** A won election: the winner, the votes it counted and its log including the first no-op. */
  datatype Election = Election(leader: Id, voters: set<Id>, log: seq<Entry>)
  /** A leader of `term` counted `index` as committed, on the strength of `quorum`. */
  datatype Commit = Commit(term: nat, index: nat, quorum: set<Id>)

  /** `line[t]` is the log of the leader of term t as far as it grew during t. `acks[(p, t)]` is
      the highest index that p confirmed to that leader (a leader confirms its own appends). */
  datatype History = History(
    grants: map<(Id, nat), Grant>,
    elected: map<nat, Election>,
    line: map<nat, seq<Entry>>,
    acks: map<(Id, nat), nat>,
    commits: set<Commit>)

  datatype Cluster = Cluster(nodes: map<Id, Node>, msgs: set<Message>, h: History)

  datatype Step =
    | ElectionTimeout(n: Id)
    | ReceiveVote(m: Message)
    | ReceiveVoteReply(m: Message)
    | Broadcast(n: Id)
    | ReceiveAppend(m: Message)
    | ReceiveAppendReply(m: Message)
    | AppendCallFailed(n: Id, peer: Id)
    | TickCommit(n: Id)
    | ClientProposes(n: Id, kind: EntryKind, payload: Bytes)
    | Apply(n: Id)
    | LoseQuorum(n: Id)
    | CrashRestart(n: Id)

  function Start(ids: set<Id>): Cluster {
    Cluster(map n | n in ids :: Initial(), {}, History(map[], map[], map[], map[], {}))
  }

  predicate Enabled(ids: set<Id>, s: Cluster, step: Step) {
    s.nodes.Keys == ids &&
    match step
    case ElectionTimeout(n) => n in ids && s.nodes[n].role != Leader
    case ReceiveVote(m) => m in s.msgs && m.VoteReq? && m.to in ids
    case ReceiveVoteReply(m) => m in s.msgs && m.VoteResp? && m.to in ids
    case Broadcast(n) => n in ids && s.nodes[n].role == Leader
    case ReceiveAppend(m) => m in s.msgs && m.AppendReq? && m.to in ids
    case ReceiveAppendReply(m) => m in s.msgs && m.AppendResp? && m.to in ids
    case AppendCallFailed(n, peer) => n in ids && peer in ids && peer != n
    case TickCommit(n) => n in ids
    case ClientProposes(n, kind, payload) => n in ids && s.nodes[n].role == Leader
    case Apply(n) => n in ids
    case LoseQuorum(n) => n in ids && s.nodes[n].role == Leader
    case CrashRestart(n) => n in ids
  }

  function Put(s: Cluster, n: Id, node: Node): Cluster {
    s.(nodes := s.nodes[n := node])
  }

  function Vote(h: History, voter: Id, term: nat, g: Grant): History {
    if (voter, term) in h.grants then h else h.(grants := h.grants[(voter, term) := g])
  }

  function Ack(h: History, p: Id, term: nat, index: nat): History {
    var prior := if (p, term) in h.acks then h.acks[(p, term)] else 0;
    h.(acks := h.acks[(p, term) := Max(prior, index)])
  }

  /** Record the commit that a leader's move from n to n' made, if it made one. */
  function Committed(h: History, self: Id, peers: set<Id>, n: Node, n': Node): History {
    if n'.commit > n.commit && n'.role == Leader then
      h.(commits := h.commits + {Commit(n'.term, n'.commit, {self} + Replicated(n', peers, n'.commit))})
    else h
  }

  function Do(ids: set<Id>, s: Cluster, step: Step): Cluster
    requires Enabled(ids, s, step)
  {
    match step
    case ElectionTimeout(i) => (
      var n := BecomeCandidate(s.nodes[i], i);
      Cluster(s.nodes[i := n],
              s.msgs + set p | p in ids - {i} :: VoteReq(i, p, VoteRequest(n.term, i, |n.log|, LastTerm(n.log))),
              Vote(s.h, i, n.term, Grant(i, n.log))))
    case ReceiveVote(m) => (
      var (n, r) := HandleVote(s.nodes[m.to], m.vreq);
      Cluster(s.nodes[m.to := n],
              s.msgs + {VoteResp(m.to, m.from, m.vreq.term, r)},
              if r.granted then Vote(s.h, m.to, n.term, Grant(m.vreq.candidate, n.log)) else s.h))
    case ReceiveVoteReply(m) => (
      var prior := s.nodes[m.to];
      var n := HandleVoteReply(prior, m.to, ids - {m.to}, m.from, m.sentTerm, m.vresp);
      Put(s, m.to, n).(h :=
        if n.role == Leader && prior.role != Leader then
          Ack(s.h.(elected := s.h.elected[n.term := Election(m.to, n.votes, n.log)],
                   line := s.h.line[n.term := n.log]),
              m.to, n.term, |n.log|)
        else s.h))
    case Broadcast(i) => (
      var n := s.nodes[i];
      s.(msgs := s.msgs + set p | p in ids - {i} && p in n.nextIndex && 1 <= n.nextIndex[p] <= |n.log| + 1
                            :: AppendReq(i, p, RequestFor(n, i, p))))
    case ReceiveAppend(m) => (
      var (n, r) := HandleAppend(s.nodes[m.to], m.areq);
      Cluster(s.nodes[m.to := n],
              s.msgs + {AppendResp(m.to, m.from, m.areq.term, r)},
              if r.success then Ack(s.h, m.to, n.term, r.matchIndex) else s.h))
    case ReceiveAppendReply(m) => (
      var n := HandleAppendReply(s.nodes[m.to], ids - {m.to}, m.from, m.sentTerm, m.aresp);
      Put(s, m.to, n).(h := Committed(s.h, m.to, ids - {m.to}, s.nodes[m.to], n)))
    case AppendCallFailed(i, peer) => (
      var n := s.nodes[i];
      Put(s, i, HandleAppendReply(n, ids - {i}, peer, n.term, AppendReply(0, false, 0))))
    case TickCommit(i) => (
      var n := AdvanceCommit(s.nodes[i], ids - {i});
      Put(s, i, n).(h := Committed(s.h, i, ids - {i}, s.nodes[i], n)))
    case ClientProposes(i, kind, payload) => (
      var n := Propose(s.nodes[i], kind, payload);
      Put(s, i, n).(h := Ack(s.h.(line := s.h.line[n.term := n.log]), i, n.term, |n.log|)))
    case Apply(i) => Put(s, i, ApplyCommitted(s.nodes[i]))
    case LoseQuorum(i) => Put(s, i, StepDown(s.nodes[i]))
    case CrashRestart(i) => Put(s, i, Restart(s.nodes[i]))
  }

  /** The cluster after a run (steps that are not enabled leave it alone). */
  function After(ids: set<Id>, run: seq<Step>): Cluster {
    if run == [] then Start(ids)
    else
      var s := After(ids, run[..|run| - 1]);
      if Enabled(ids, s, run[|run| - 1]) then Do(ids, s, run[|run| - 1]) else s
  }
}
