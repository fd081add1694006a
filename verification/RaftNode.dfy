/** The state of one Raft node and the effect of each of its handlers as functions of that
    state. The class in RaftServer runs the same handlers in place. */
module RaftNode {
  import opened ByteStrings
  import opened RaftLog

  type Id = nat

  datatype Role = Follower | Candidate | Leader

  /** `term`, `votedFor` and `log` are on disk; the rest is lost in a crash. `votes` is the tally
      of the election the node is running; `output` is what this incarnation handed to its
      state machine, in order. */
  datatype Node = Node(
    term: nat, votedFor: Option<Id>, log: seq<Entry>,
    role: Role, leader: Option<Id>, commit: nat, applied: nat,
    nextIndex: map<Id, nat>, matchIndex: map<Id, nat>,
    votes: set<Id>, output: seq<Entry>)

  datatype VoteRequest = VoteRequest(term: nat, candidate: Id, lastIndex: nat, lastTerm: nat)
  datatype VoteReply = VoteReply(term: nat, granted: bool)
  datatype AppendRequest = AppendRequest(
    term: nat, leader: Id, prevIndex: nat, prevTerm: nat, entries: seq<Entry>, leaderCommit: nat)
  datatype AppendReply = AppendReply(term: nat, success: bool, matchIndex: nat)

  function Max(a: nat, b: nat): nat { if a < b then b else a }
  function Min(a: nat, b: nat): nat { if a < b then a else b }

  function Initial(): Node {
    Node(0, None, [], Follower, None, 0, 0, map[], map[], {}, [])
  }

  /** Coming back from a crash: only term, vote and log survive. */
  function Restart(n: Node): Node {
    Initial().(term := n.term, votedFor := n.votedFor, log := n.log)
  }

  /** Votes needed in a cluster of this node and its peers. */
  function Majority(peers: set<Id>): nat {
    (|peers| + 1) / 2 + 1
  }

  /** Also called with the node's own term when a leader loses its quorum: the vote is
      cleared even though the term does not change. */
  function BecomeFollower(n: Node, term: nat): Node {
    n.(term := term, votedFor := None, role := Follower, leader := None)
  }

  function BecomeCandidate(n: Node, self: Id): Node {
    n.(role := Candidate, term := n.term + 1, votedFor := Some(self), leader := None, votes := {self})
  }

  function ForAll(peers: set<Id>, v: nat): map<Id, nat> {
    map p | p in peers :: v
  }

  function BecomeLeader(n: Node, self: Id, peers: set<Id>): Node {
    n.(role := Leader, leader := Some(self),
       nextIndex := n.nextIndex + ForAll(peers, |n.log| + 1),
       matchIndex := n.matchIndex + ForAll(peers, 0),
       log := n.log + [Entry(|n.log| + 1, n.term, Noop, [])])
  }

  /** (term, index) of the last entry, as elections compare it. */
  function LastOf(log: seq<Entry>): (nat, nat) {
    if log == [] then (0, 0) else (log[|log| - 1].term, |log|)
  }

  predicate AtLeast(a: (nat, nat), b: (nat, nat)) { a.0 > b.0 || (a.0 == b.0 && a.1 >= b.1) }

  /** The request is not from an older term and its entries fit onto the log. */
  predicate Welcome(n: Node, req: AppendRequest) {
    && req.term >= n.term
    && (req.prevIndex == 0 || (req.prevIndex <= |n.log| && n.log[req.prevIndex - 1].term == req.prevTerm))
  }

  /** The voter's test that a candidate's log is at least as up to date as its own. */
  predicate UpToDate(lastIndex: nat, lastTerm: nat, log: seq<Entry>) {
    lastTerm > LastTerm(log) || (lastTerm == LastTerm(log) && lastIndex >= |log|)
  }

  function HandleVote(n: Node, req: VoteRequest): (r: (Node, VoteReply)) {
    if req.term < n.term then (n, VoteReply(n.term, false))
    else
      var m := if req.term > n.term then BecomeFollower(n, req.term) else n;
      if (m.votedFor == None || m.votedFor == Some(req.candidate)) && UpToDate(req.lastIndex, req.lastTerm, m.log) then
        (m.(votedFor := Some(req.candidate)), VoteReply(m.term, true))
      else (m, VoteReply(m.term, false))
  }

  function HandleVoteReply(n: Node, self: Id, peers: set<Id>, from: Id, sentTerm: nat, resp: VoteReply): Node {
    if resp.term > n.term then BecomeFollower(n, resp.term)
    else if n.term != sentTerm || n.role != Candidate then n
    else if resp.term != 0 && resp.term < sentTerm then n
    else if resp.term == 0 && !resp.granted then n
    else
      var m := if resp.granted then n.(votes := n.votes + {from}) else n;
      if |m.votes| >= Majority(peers) then BecomeLeader(m, self, peers) else m
  }

  function HandleAppend(n: Node, req: AppendRequest): (r: (Node, AppendReply)) {
    if req.term < n.term then (n, AppendReply(n.term, false, 0))
    else
      var m := (if req.term > n.term then BecomeFollower(n, req.term)
          else n.(role := Follower)).(leader := Some(req.leader));
      if req.prevIndex > 0 && (|m.log| < req.prevIndex || TermAt(m.log, req.prevIndex) != req.prevTerm) then
        (m, AppendReply(m.term, false, 0))
      else
        var log := Merge(m.log, req.entries);
        (m.(log := log, commit := Max(m.commit, Min(req.leaderCommit, |log|))),
         AppendReply(m.term, true, req.prevIndex + |req.entries|))
  }

  /** A lost or failed call reaches this with the reply (0, false, 0). */
  function HandleAppendReply(n: Node, peers: set<Id>, from: Id, sentTerm: nat, resp: AppendReply): Node {
    if resp.term > n.term then BecomeFollower(n, resp.term)
    else if n.term != sentTerm || n.role != Leader then n
    else
      var next := if from in n.nextIndex then n.nextIndex[from] else 0;
      if !resp.success then n.(nextIndex := n.nextIndex[from := if next <= 2 then 1 else next - 1])
      else
        var mtch := if from in n.matchIndex then n.matchIndex[from] else 0;
        AdvanceCommit(
          n.(matchIndex := n.matchIndex[from := Max(mtch, resp.matchIndex)],
             nextIndex := n.nextIndex[from := Max(next, resp.matchIndex + 1)]),
          peers)
  }

  /** The peers known to hold the log up to index i. */
  function Replicated(n: Node, peers: set<Id>, i: nat): set<Id> {
    set p | p in peers && p in n.matchIndex && n.matchIndex[p] >= i
  }

  predicate Committable(n: Node, peers: set<Id>, i: nat) {
    TermAt(n.log, i) == n.term && |Replicated(n, peers, i)| + 1 >= Majority(peers)
  }

  /** The highest committable index in (low, i], or low if there is none. */
  function CommitTarget(n: Node, peers: set<Id>, low: nat, i: nat): (r: nat)
    ensures r == low || (low < r <= i && Committable(n, peers, r))
    ensures forall j :: r < j <= i ==> !Committable(n, peers, j)
  {
    if i <= low then low
    else if Committable(n, peers, i) then i
    else CommitTarget(n, peers, low, i - 1)
  }

  function AdvanceCommit(n: Node, peers: set<Id>): Node {
    if n.role != Leader then n else n.(commit := CommitTarget(n, peers, n.commit, |n.log|))
  }

  /** The request a leader ships to p: everything from nextIndex[p] to the end of its log. */
  function RequestFor(n: Node, self: Id, p: Id): AppendRequest
    requires p in n.nextIndex && 1 <= n.nextIndex[p] <= |n.log| + 1
  {
    var prev := n.nextIndex[p] - 1;
    AppendRequest(n.term, self, prev, TermAt(n.log, prev), n.log[prev..], n.commit)
  }

  function Propose(n: Node, kind: EntryKind, payload: Bytes): Node {
    if n.role != Leader then n else n.(log := n.log + [Entry(|n.log| + 1, n.term, kind, payload)])
  }

  /** Hand every committed entry that is present and not yet applied to the state machine. */
  function ApplyCommitted(n: Node): Node {
    var upTo := Min(n.commit, |n.log|);
    if upTo <= n.applied then n
    else n.(applied := upTo, output := n.output + n.log[n.applied..upTo])
  }

  /** A leader that has been out of touch with a majority for too long. */
  function StepDown(n: Node): Node {
    if n.role == Leader then BecomeFollower(n, n.term) else n
  }
}
