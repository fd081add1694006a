/** A follower that a leader can reach catches up with it. */
module RaftCatchUp {
  import opened RaftLog
  import opened RaftNode
  import opened RaftProtocol
  import opened RaftInvariant
  import RaftSafety

  datatype Outcome = Outcome(leader: Node, follower: Node, rejections: nat)

  ghost predicate CanShip(n: Node, f: Node, p: Id) {
    n.role == Leader && f.term <= n.term && p in n.nextIndex && 1 <= n.nextIndex[p] <= |n.log| + 1
  }

  /** Repeated append calls from leader n to p, whose state is f, until one is accepted. */
  ghost function CatchUp(n: Node, self: Id, peers: set<Id>, p: Id, f: Node): Outcome
    requires CanShip(n, f, p)
    decreases n.nextIndex[p]
  {
    var (f', r) := HandleAppend(f, RequestFor(n, self, p));
    var n' := HandleAppendReply(n, peers, p, n.term, r);
    if r.success then Outcome(n', f', 0)
    else CatchUp(n', self, peers, p, f').(rejections := CatchUp(n', self, peers, p, f').rejections + 1)
  }

  lemma Accepted(n: Node, self: Id, peers: set<Id>, p: Id, f: Node)
    requires CanShip(n, f, p) && Indexed(n.log) && Matching(f.log, n.log)
    requires HandleAppend(f, RequestFor(n, self, p)).1.success
    requires p in n.matchIndex && n.matchIndex[p] <= |n.log|
    ensures var (f', r) := HandleAppend(f, RequestFor(n, self, p));
            var n' := HandleAppendReply(n, peers, p, n.term, r);
            && Has(f'.log, n.log, |n.log|) && f'.term == n.term && n'.log == n.log
            && p in n'.matchIndex && n'.matchIndex[p] == |n.log| && p in n'.nextIndex && n'.nextIndex[p] == |n.log| + 1
  {
    var req := RequestFor(n, self, p);
    assert Has(f.log, n.log, req.prevIndex) by {
      if req.prevIndex > 0 { assert f.log[req.prevIndex - 1].term == n.log[req.prevIndex - 1].term; }
    }
    MergeWithLeader(f.log, n.log, req.prevIndex, req.entries);
  }

  lemma Rejected(n: Node, self: Id, peers: set<Id>, p: Id, f: Node)
    requires CanShip(n, f, p) && !HandleAppend(f, RequestFor(n, self, p)).1.success
    ensures var (f', r) := HandleAppend(f, RequestFor(n, self, p));
            var n' := HandleAppendReply(n, peers, p, n.term, r);
            && CanShip(n', f', p) && n'.nextIndex[p] == n.nextIndex[p] - 1
            && n'.log == n.log && n'.matchIndex == n.matchIndex && n'.term == n.term && f'.log == f.log
  {}

  /** At most nextIndex - 1 calls are rejected; then the follower's log starts with the whole
      leader's log, and the leader knows it. */
  lemma {:induction false} CatchUpTerminates(n: Node, self: Id, peers: set<Id>, p: Id, f: Node)
    requires CanShip(n, f, p) && Indexed(n.log) && Matching(f.log, n.log)
    requires p in n.matchIndex && n.matchIndex[p] <= |n.log|
    ensures var o := CatchUp(n, self, peers, p, f);
            && o.rejections <= n.nextIndex[p] - 1
            && Has(o.follower.log, n.log, |n.log|) && o.follower.term == n.term
            && o.leader.log == n.log && p in o.leader.matchIndex && o.leader.matchIndex[p] == |n.log|
            && p in o.leader.nextIndex && o.leader.nextIndex[p] == |n.log| + 1
    decreases n.nextIndex[p]
  {
    var (f', r) := HandleAppend(f, RequestFor(n, self, p));
    if r.success {
      Accepted(n, self, peers, p, f);
    } else {
      Rejected(n, self, peers, p, f);
      CatchUpTerminates(HandleAppendReply(n, peers, p, n.term, r), self, peers, p, f');
    }
  }

  /** In every reachable cluster a leader and a peer that is not ahead of it in term are in a
      position to run this. */
  lemma Ready(ids: set<Id>, run: seq<Step>, a: Id, b: Id)
    requires var s := After(ids, run);
             && a in s.nodes && b in s.nodes && a != b
             && s.nodes[a].role == Leader && s.nodes[b].term <= s.nodes[a].term
    ensures var n, f := After(ids, run).nodes[a], After(ids, run).nodes[b];
            && CanShip(n, f, b) && Indexed(n.log) && Matching(f.log, n.log)
            && b in n.matchIndex && n.matchIndex[b] <= |n.log|
  {
    var s := After(ids, run);
    RaftSafety.AlwaysInv(ids, run);
    assert NodeOk(ids, a, s.nodes[a], s.h) && NodeOk(ids, b, s.nodes[b], s.h);
    assert s.nodes[a].matchIndex[b] <= |s.nodes[a].log| by {
      assert ElectionOk(ids, s.nodes[a].term, s.nodes, s.h);
      if s.nodes[a].matchIndex[b] > 0 { assert AckOk(ids, b, s.nodes[a].term, s.nodes[b], s.h); }
    }
    LinesMatch(s.nodes[b].log, s.nodes[a].log, s.h.line);
  }

  /** So it catches up. */
  lemma ReachableCatchUp(ids: set<Id>, run: seq<Step>, a: Id, b: Id)
    requires var s := After(ids, run);
             && a in s.nodes && b in s.nodes && a != b
             && s.nodes[a].role == Leader && s.nodes[b].term <= s.nodes[a].term
    ensures var n, f := After(ids, run).nodes[a], After(ids, run).nodes[b];
            CanShip(n, f, b) && var o := CatchUp(n, a, ids - {a}, b, f);
            o.rejections < n.nextIndex[b] && Has(o.follower.log, n.log, |n.log|) &&
            b in o.leader.matchIndex && o.leader.matchIndex[b] == |n.log|
  {
    Ready(ids, run, a, b);
    CatchUpTerminates(After(ids, run).nodes[a], a, ids - {a}, b, After(ids, run).nodes[b]);
  }
}
