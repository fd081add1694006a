/** From every reachable cluster there is a way on: a node of a quorum whose log is not behind can be
    elected by that quorum alone, and what a client then proposes is applied on all of it. */
module RaftProgress {
  import opened ByteStrings
  import opened RaftLog
  import opened RaftNode
  import opened RaftProtocol
  import opened RaftInvariant
  import opened RaftAnswers
  import RaftCatchUp
  import RaftSafety

  function Mover(step: Step): Id {
    match step
    case ReceiveVote(m) => m.to
    case ReceiveVoteReply(m) => m.to
    case ReceiveAppend(m) => m.to
    case ReceiveAppendReply(m) => m.to
    case _ => step.n
  }

  /** Only node v moved, and no message got lost. */
  ghost predicate Only(s: Cluster, s': Cluster, v: Id) {
    v in s.nodes && v in s'.nodes && s'.nodes == s.nodes[v := s'.nodes[v]] && s.msgs <= s'.msgs
  }

  /** Nobody outside q moved. */
  ghost predicate Within(s: Cluster, s': Cluster, q: set<Id>) {
    forall v :: v in s.nodes && v !in q ==> v in s'.nodes && s'.nodes[v] == s.nodes[v]
  }

  lemma WithinTwice(a: Cluster, b: Cluster, c: Cluster, q: set<Id>)
    requires Within(a, b, q) && Within(b, c, q)
    ensures Within(a, c, q)
  {}

  lemma MovesOne(ids: set<Id>, s: Cluster, step: Step)
    requires Enabled(ids, s, step)
    ensures Only(s, Do(ids, s, step), Mover(step))
  {}

  lemma Go(ids: set<Id>, run: seq<Step>, step: Step) returns (run': seq<Step>)
    requires Enabled(ids, After(ids, run), step)
    ensures run <= run' && After(ids, run') == Do(ids, After(ids, run), step)
    ensures Only(After(ids, run), After(ids, run'), Mover(step))
  {
    run' := run + [step];
    AfterNext(ids, run, step);
    MovesOne(ids, After(ids, run), step);
  }

  lemma Members(ids: set<Id>, run: seq<Step>)
    ensures After(ids, run).nodes.Keys == ids
  {
    RaftSafety.AlwaysInv(ids, run);
  }

  // ---- Election ----

  function Asks(i: Id, p: Id, n: Node): Message {
    VoteReq(i, p, VoteRequest(n.term, i, |n.log|, LastOf(n.log).0))
  }

  function Yes(v: Id, i: Id, term: nat): Message { VoteResp(v, i, term, VoteReply(term, true)) }

  /** i runs for leader in a term above `high` and has asked everyone. */
  ghost predicate Running(ids: set<Id>, s: Cluster, i: Id, high: nat, log: seq<Entry>) {
    && i in s.nodes && s.nodes[i].role == Candidate && s.nodes[i].term > high && s.nodes[i].votes == {i}
    && s.nodes[i].log == log && forall p :: p in ids && p != i ==> Asks(i, p, s.nodes[i]) in s.msgs
  }

  lemma RunOnce(ids: set<Id>, run: seq<Step>, i: Id) returns (run': seq<Step>)
    requires i in ids && After(ids, run).nodes.Keys == ids && After(ids, run).nodes[i].role != Leader
    ensures run <= run' && Only(After(ids, run), After(ids, run'), i)
    ensures Running(ids, After(ids, run'), i, After(ids, run).nodes[i].term, After(ids, run).nodes[i].log)
    ensures After(ids, run').nodes[i].term == After(ids, run).nodes[i].term + 1
  {
    TimeoutRuns(ids, After(ids, run), i);
    run' := Go(ids, run, ElectionTimeout(i));
  }

  lemma OnlyTwice(a: Cluster, b: Cluster, c: Cluster, v: Id)
    requires Only(a, b, v) && Only(b, c, v)
    ensures Only(a, c, v)
  {}

  /** Time after time, until the term is above all others. */
  lemma {:induction false} RunUntil(ids: set<Id>, run: seq<Step>, i: Id, high: nat) returns (run': seq<Step>)
    requires i in ids && After(ids, run).nodes.Keys == ids && After(ids, run).nodes[i].role != Leader
    ensures run <= run' && Only(After(ids, run), After(ids, run'), i)
    ensures Running(ids, After(ids, run'), i, high, After(ids, run).nodes[i].log)
    decreases if After(ids, run).nodes[i].term <= high then high + 1 - After(ids, run).nodes[i].term else 0
  {
    run' := RunOnce(ids, run, i);
    if After(ids, run').nodes[i].term <= high {
      var mid := run';
      run' := RunUntil(ids, mid, i, high);
      OnlyTwice(After(ids, run), After(ids, mid), After(ids, run'), i);
    }
  }

  lemma Campaign(ids: set<Id>, run: seq<Step>, i: Id, high: nat) returns (run': seq<Step>)
    requires i in ids
    ensures i in After(ids, run).nodes && run <= run' && Only(After(ids, run), After(ids, run'), i)
    ensures Running(ids, After(ids, run'), i, high, After(ids, run).nodes[i].log)
  {
    Members(ids, run);
    if After(ids, run).nodes[i].role == Leader {
      var mid := Go(ids, run, LoseQuorum(i));
      run' := RunUntil(ids, mid, i, high);
      OnlyTwice(After(ids, run), After(ids, mid), After(ids, run'), i);
    } else {
      run' := RunUntil(ids, run, i, high);
    }
  }

  /** Everyone in `q` is of a lower term and not ahead, or has answered with its vote. */
  ghost predicate Polling(ids: set<Id>, s: Cluster, i: Id, n: Node, q: set<Id>, got: set<Id>) {
    && s.nodes.Keys == ids && i in ids && q <= ids && s.nodes[i] == n && n.role == Candidate
    && (forall p :: p in ids && p != i ==> Asks(i, p, n) in s.msgs)
    && (forall v :: v in q && v != i ==>
          if v in got then s.nodes[v].term == n.term && Yes(v, i, n.term) in s.msgs
          else s.nodes[v].term < n.term && AtLeast(LastOf(n.log), LastOf(s.nodes[v].log)))
  }

  lemma PollOne(ids: set<Id>, run: seq<Step>, i: Id, n: Node, q: set<Id>, got: set<Id>, v: Id) returns (run': seq<Step>)
    requires Polling(ids, After(ids, run), i, n, q, got) && v in q && v != i && v !in got
    ensures run <= run' && Within(After(ids, run), After(ids, run'), q)
    ensures Polling(ids, After(ids, run'), i, n, q, got + {v})
  {
    var m := Asks(i, v, n);
    NotAheadGrants(ids, run, m);
    run' := Go(ids, run, ReceiveVote(m));
    AfterNext(ids, run, ReceiveVote(m));
  }

  lemma {:induction false} PollAll(ids: set<Id>, run: seq<Step>, i: Id, n: Node, q: set<Id>, got: set<Id>)
    returns (run': seq<Step>)
    requires Polling(ids, After(ids, run), i, n, q, got) && got <= q - {i}
    ensures run <= run' && Within(After(ids, run), After(ids, run'), q)
    ensures Polling(ids, After(ids, run'), i, n, q, q - {i})
    decreases q - got
  {
    if v :| v in q && v != i && v !in got {
      var mid := PollOne(ids, run, i, n, q, got, v);
      run' := PollAll(ids, mid, i, n, q, got + {v});
      WithinTwice(After(ids, run), After(ids, mid), After(ids, run'), q);
    } else {
      run' := run;
      assert got == q - {i};
    }
  }

  /** The votes of q - {i} are on their way and i has counted those of `counted`. */
  ghost predicate Counting(ids: set<Id>, s: Cluster, i: Id, term: nat, log: seq<Entry>, q: set<Id>, counted: set<Id>) {
    && s.nodes.Keys == ids && i in q && q <= ids && s.nodes[i].role == Candidate && s.nodes[i].term == term
    && s.nodes[i].log == log && s.nodes[i].votes == {i} + counted
    && (forall v :: v in q && v != i ==> s.nodes[v].term == term && Yes(v, i, term) in s.msgs)
  }

  /** i leads in `term` with `log`, and nobody in q is ahead of that term. */
  ghost predicate Leading(ids: set<Id>, s: Cluster, i: Id, term: nat, log: seq<Entry>, q: set<Id>) {
    && s.nodes.Keys == ids && i in q && q <= ids && s.nodes[i].role == Leader && s.nodes[i].term == term
    && s.nodes[i].log == log && (forall v :: v in q ==> s.nodes[v].term <= term)
  }

  lemma CountOne(ids: set<Id>, run: seq<Step>, i: Id, term: nat, log: seq<Entry>, q: set<Id>, counted: set<Id>, v: Id)
    returns (run': seq<Step>)
    requires Counting(ids, After(ids, run), i, term, log, q, counted) && v in q && v != i
    ensures run <= run' && Within(After(ids, run), After(ids, run'), q)
    ensures if Quorum(ids, {i} + (counted + {v})) then
              Leading(ids, After(ids, run'), i, term, log + [Entry(|log| + 1, term, Noop, [])], q)
            else Counting(ids, After(ids, run'), i, term, log, q, counted + {v})
  {
    var m, s := Yes(v, i, term), After(ids, run);
    VotesWithin(ids, run, i);
    run' := Go(ids, run, ReceiveVoteReply(m));
    Counted(ids, s, After(ids, run'), i, term, log, q, counted, v);
  }

  lemma VotesWithin(ids: set<Id>, run: seq<Step>, i: Id)
    requires i in After(ids, run).nodes && After(ids, run).nodes[i].role == Candidate
    ensures After(ids, run).nodes[i].votes <= ids
  {
    RaftSafety.AlwaysInv(ids, run);
    assert NodeOk(ids, i, After(ids, run).nodes[i], After(ids, run).h);
  }

  lemma Counted(ids: set<Id>, s: Cluster, s': Cluster, i: Id, term: nat, log: seq<Entry>, q: set<Id>, counted: set<Id>,
      v: Id)
    requires Counting(ids, s, i, term, log, q, counted) && v in q && v != i && s.nodes[i].votes <= ids
    requires s'.nodes == s.nodes[i := HandleVoteReply(s.nodes[i], i, ids - {i}, v, term, VoteReply(term, true))]
    requires s.msgs <= s'.msgs
    ensures Within(s, s', q)
    ensures if Quorum(ids, {i} + (counted + {v})) then
              Leading(ids, s', i, term, log + [Entry(|log| + 1, term, Noop, [])], q)
            else Counting(ids, s', i, term, log, q, counted + {v})
  {
    TallyIs(ids, i, s.nodes[i], v, term, VoteReply(term, true));
    assert s.nodes[i].votes + {v} == {i} + (counted + {v});
  }

  lemma {:induction false} CountAll(ids: set<Id>, run: seq<Step>, i: Id, term: nat, log: seq<Entry>, q: set<Id>,
      counted: set<Id>)
    returns (run': seq<Step>)
    requires Counting(ids, After(ids, run), i, term, log, q, counted) && Quorum(ids, q)
    requires counted <= q - {i} && q - {i} - counted != {}
    ensures run <= run' && Within(After(ids, run), After(ids, run'), q)
    ensures Leading(ids, After(ids, run'), i, term, log + [Entry(|log| + 1, term, Noop, [])], q)
    decreases q - counted
  {
    var v :| v in q - {i} - counted;
    var mid := CountOne(ids, run, i, term, log, q, counted, v);
    if Quorum(ids, {i} + (counted + {v})) {
      run' := mid;
    } else {
      if q - {i} - (counted + {v}) == {} {
        AllOf(q, i, counted + {v});
        assert false;
      }
      run' := CountAll(ids, mid, i, term, log, q, counted + {v});
      WithinTwice(After(ids, run), After(ids, mid), After(ids, run'), q);
    }
  }

  lemma AllOf(q: set<Id>, i: Id, part: set<Id>)
    requires i in q && part <= q - {i} && q - {i} - part == {}
    ensures {i} + part == q
  {
    forall v | v in q ensures v in {i} + part { assert v !in q - {i} - part; }
  }

  /** The largest term in q. */
  lemma {:induction false} Highest(nodes: map<Id, Node>, q: set<Id>) returns (high: nat)
    requires q <= nodes.Keys
    ensures forall v :: v in q ==> nodes[v].term <= high
  {
    if q == {} {
      high := 0;
    } else {
      var v :| v in q;
      high := Highest(nodes, q - {v});
      high := Max(high, nodes[v].term);
    }
  }

  /** Nobody in q has a log ahead of i's. */
  ghost predicate NotBehind(s: Cluster, i: Id, q: set<Id>) {
    i in s.nodes && q <= s.nodes.Keys && forall v :: v in q ==> AtLeast(LastOf(s.nodes[i].log), LastOf(s.nodes[v].log))
  }

  lemma TwoOfQuorum(ids: set<Id>, i: Id, q: set<Id>)
    requires Quorum(ids, q) && i in q && |ids| >= 2
    ensures q - {i} != {}
  {
    assert |q - {i}| == |q| - 1;
  }

  /** A quorum elects any of its members whose log is not behind. */
  lemma Elects(ids: set<Id>, run: seq<Step>, i: Id, q: set<Id>) returns (run': seq<Step>, term: nat)
    requires Quorum(ids, q) && i in q && |ids| >= 2 && NotBehind(After(ids, run), i, q)
    ensures run <= run' && Within(After(ids, run), After(ids, run'), q)
    ensures var log := After(ids, run).nodes[i].log;
            Leading(ids, After(ids, run'), i, term, log + [Entry(|log| + 1, term, Noop, [])], q)
  {
    Members(ids, run);
    var s := After(ids, run);
    var high := Highest(s.nodes, q);
    var asked := Campaign(ids, run, i, high);
    var n := After(ids, asked).nodes[i];
    term := n.term;
    var polled := PollAll(ids, asked, i, n, q, {});
    WithinTwice(s, After(ids, asked), After(ids, polled), q);
    TwoOfQuorum(ids, i, q);
    run' := CountAll(ids, polled, i, term, s.nodes[i].log, q, {});
    WithinTwice(s, After(ids, polled), After(ids, run'), q);
  }

  // ---- Replication ----

  /** v holds the whole of the leader's log and the leader knows it. */
  ghost predicate Caught(s: Cluster, i: Id, log: seq<Entry>, v: Id) {
    && i in s.nodes && v in s.nodes && Has(s.nodes[v].log, log, |log|)
    && v in s.nodes[i].matchIndex && s.nodes[i].matchIndex[v] == |log|
    && v in s.nodes[i].nextIndex && s.nodes[i].nextIndex[v] == |log| + 1
  }

  /** One call from the leader to v, answered. */
  lemma Call(ids: set<Id>, run: seq<Step>, i: Id, v: Id) returns (run': seq<Step>)
    requires i in ids && v in ids && v != i && After(ids, run).nodes.Keys == ids
    requires After(ids, run).nodes[i].role == Leader && After(ids, run).nodes[v].term <= After(ids, run).nodes[i].term
    ensures run <= run'
    ensures var s, s' := After(ids, run), After(ids, run');
            && v in s.nodes[i].nextIndex && 1 <= s.nodes[i].nextIndex[v] <= |s.nodes[i].log| + 1
            && var (f, r) := HandleAppend(s.nodes[v], RequestFor(s.nodes[i], i, v));
               s'.nodes == s.nodes[v := f][i := HandleAppendReply(s.nodes[i], ids - {i}, v, s.nodes[i].term, r)]
  {
    var s := After(ids, run);
    RaftCatchUp.Ready(ids, run, i, v);
    var m := AppendReq(i, v, RequestFor(s.nodes[i], i, v));
    var sent := Send(ids, run, i, v, m);
    var answered := Go(ids, sent, ReceiveAppend(m));
    var (f, r) := HandleAppend(s.nodes[v], m.areq);
    run' := Go(ids, answered, ReceiveAppendReply(AppendResp(v, i, m.areq.term, r)));
  }

  /** The leader ships to the nodes of q; those in `done` have everything. */
  ghost predicate Shipping(ids: set<Id>, s: Cluster, i: Id, term: nat, log: seq<Entry>, q: set<Id>, done: set<Id>) {
    Leading(ids, s, i, term, log, q) && done <= q - {i} && forall w :: w in done ==> Caught(s, i, log, w)
  }

  lemma Answered(ids: set<Id>, s: Cluster, s': Cluster, i: Id, v: Id, term: nat, log: seq<Entry>, q: set<Id>,
      done: set<Id>)
    requires Shipping(ids, s, i, term, log, q, done) && v in q && v != i && v !in done
    requires var n, f := s.nodes[i], s.nodes[v];
             && RaftCatchUp.CanShip(n, f, v) && Indexed(n.log) && Matching(f.log, n.log)
             && v in n.matchIndex && n.matchIndex[v] <= |n.log|
             && var (f', r) := HandleAppend(f, RequestFor(n, i, v));
                s'.nodes == s.nodes[v := f'][i := HandleAppendReply(n, ids - {i}, v, n.term, r)]
    ensures Within(s, s', q)
    ensures if HandleAppend(s.nodes[v], RequestFor(s.nodes[i], i, v)).1.success then
              Shipping(ids, s', i, term, log, q, done + {v})
            else
              && Shipping(ids, s', i, term, log, q, done)
              && v in s'.nodes[i].nextIndex && s'.nodes[i].nextIndex[v] == s.nodes[i].nextIndex[v] - 1
  {
    var n, f := s.nodes[i], s.nodes[v];
    var (f', r) := HandleAppend(f, RequestFor(n, i, v));
    AppendIs(f, RequestFor(n, i, v));
    ReplyIs(ids, i, n, v, n.term, r);
    if r.success { RaftCatchUp.Accepted(n, i, ids - {i}, v, f); } else { RaftCatchUp.Rejected(n, i, ids - {i}, v, f); }
  }

  lemma {:induction false} ShipTo(ids: set<Id>, run: seq<Step>, i: Id, v: Id, term: nat, log: seq<Entry>, q: set<Id>,
      done: set<Id>)
    returns (run': seq<Step>)
    requires Shipping(ids, After(ids, run), i, term, log, q, done) && v in q && v != i && v !in done
    ensures run <= run' && Within(After(ids, run), After(ids, run'), q)
    ensures Shipping(ids, After(ids, run'), i, term, log, q, done + {v})
    decreases if v in After(ids, run).nodes[i].nextIndex then After(ids, run).nodes[i].nextIndex[v] else 0
  {
    RaftCatchUp.Ready(ids, run, i, v);
    var mid := Call(ids, run, i, v);
    Answered(ids, After(ids, run), After(ids, mid), i, v, term, log, q, done);
    if HandleAppend(After(ids, run).nodes[v], RequestFor(After(ids, run).nodes[i], i, v)).1.success {
      run' := mid;
    } else {
      run' := ShipTo(ids, mid, i, v, term, log, q, done);
      WithinTwice(After(ids, run), After(ids, mid), After(ids, run'), q);
    }
  }

  lemma {:induction false} ShipAll(ids: set<Id>, run: seq<Step>, i: Id, term: nat, log: seq<Entry>, q: set<Id>,
      done: set<Id>)
    returns (run': seq<Step>)
    requires Shipping(ids, After(ids, run), i, term, log, q, done)
    ensures run <= run' && Within(After(ids, run), After(ids, run'), q)
    ensures Shipping(ids, After(ids, run'), i, term, log, q, q - {i})
    decreases q - done
  {
    if v :| v in q && v != i && v !in done {
      var mid := ShipTo(ids, run, i, v, term, log, q, done);
      run' := ShipAll(ids, mid, i, term, log, q, done + {v});
      WithinTwice(After(ids, run), After(ids, mid), After(ids, run'), q);
    } else {
      run' := run;
      assert done == q - {i};
    }
  }

  // ---- Commit and application ----

  lemma MoreIsQuorum(ids: set<Id>, q: set<Id>, more: set<Id>)
    requires Quorum(ids, q) && q <= more <= ids
    ensures Quorum(ids, more)
  {
    assert |more| == |q| + |more - q| by { assert more == q + (more - q); }
  }

  /** Once a quorum has the whole log, and its last entry is of this term, all of it is committed. */
  lemma CommitIt(ids: set<Id>, run: seq<Step>, i: Id, term: nat, log: seq<Entry>, q: set<Id>) returns (run': seq<Step>)
    requires Shipping(ids, After(ids, run), i, term, log, q, q - {i}) && Quorum(ids, q)
    requires log != [] && log[|log| - 1].term == term
    ensures run <= run' && Within(After(ids, run), After(ids, run'), q)
    ensures Shipping(ids, After(ids, run'), i, term, log, q, q - {i}) && After(ids, run').nodes[i].commit == |log|
  {
    var s := After(ids, run);
    QuorumHolds(ids, s, i, term, log, q);
    TickCommitsHighest(ids, run, i);
    run' := Go(ids, run, TickCommit(i));
    AfterNext(ids, run, TickCommit(i));
    CommitInLog(ids, run', i);
    OnlyCommitMoved(ids, s, After(ids, run'), i, term, log, q);
  }

  lemma QuorumHolds(ids: set<Id>, s: Cluster, i: Id, term: nat, log: seq<Entry>, q: set<Id>)
    requires Shipping(ids, s, i, term, log, q, q - {i}) && Quorum(ids, q)
    requires log != [] && log[|log| - 1].term == term
    ensures Held(ids, i, s.nodes[i], |log|)
  {
    var n := s.nodes[i];
    forall v | v in q ensures v in Holders(ids, i, n, |log|) { if v != i { assert Caught(s, i, log, v); } }
    MoreIsQuorum(ids, q, Holders(ids, i, n, |log|));
  }

  lemma CommitInLog(ids: set<Id>, run: seq<Step>, i: Id)
    requires i in After(ids, run).nodes
    ensures After(ids, run).nodes[i].commit <= |After(ids, run).nodes[i].log|
  {
    RaftSafety.AlwaysInv(ids, run);
    assert NodeOk(ids, i, After(ids, run).nodes[i], After(ids, run).h);
  }

  lemma OnlyCommitMoved(ids: set<Id>, s: Cluster, s': Cluster, i: Id, term: nat, log: seq<Entry>, q: set<Id>)
    requires Shipping(ids, s, i, term, log, q, q - {i}) && i in s'.nodes
    requires s'.nodes == s.nodes[i := s.nodes[i].(commit := s'.nodes[i].commit)]
    ensures Shipping(ids, s', i, term, log, q, q - {i}) && Within(s, s', q)
  {
    forall w | w in q - {i} ensures Caught(s', i, log, w) { assert Caught(s, i, log, w); }
  }

  ghost predicate Applied(s: Cluster, v: Id, log: seq<Entry>) {
    v in s.nodes && Has(s.nodes[v].output, log, |log|)
  }

  /** The leader has committed its log, and the nodes in `told` have applied it. */
  ghost predicate Telling(ids: set<Id>, s: Cluster, i: Id, term: nat, log: seq<Entry>, q: set<Id>, told: set<Id>) {
    && Shipping(ids, s, i, term, log, q, q - {i}) && s.nodes[i].commit == |log|
    && told <= q && forall w :: w in told ==> Applied(s, w, log)
  }

  lemma ApplyOne(ids: set<Id>, run: seq<Step>, v: Id, log: seq<Entry>) returns (run': seq<Step>)
    requires v in ids && v in After(ids, run).nodes && Has(After(ids, run).nodes[v].log, log, |log|)
    requires After(ids, run).nodes[v].commit >= |log|
    ensures run <= run' && Only(After(ids, run), After(ids, run'), v) && Applied(After(ids, run'), v, log)
    ensures var n, n' := After(ids, run).nodes[v], After(ids, run').nodes[v];
            && n'.log == n.log && n'.commit == n.commit && n'.term == n.term && n'.role == n.role
            && n'.matchIndex == n.matchIndex && n'.nextIndex == n.nextIndex
  {
    Members(ids, run);
    run' := Go(ids, run, Apply(v));
    RaftSafety.AlwaysInv(ids, run);
    RaftSafety.AlwaysInv(ids, run');
    var n' := After(ids, run').nodes[v];
    assert NodeOk(ids, v, After(ids, run).nodes[v], After(ids, run).h);
    assert NodeOk(ids, v, n', After(ids, run').h);
  }

  /** v hears how far the leader has committed. */
  lemma Inform(ids: set<Id>, run: seq<Step>, i: Id, v: Id, term: nat, log: seq<Entry>, q: set<Id>, told: set<Id>)
    returns (run': seq<Step>)
    requires Telling(ids, After(ids, run), i, term, log, q, told) && v in q && v != i && v !in told
    ensures run <= run' && Within(After(ids, run), After(ids, run'), q)
    ensures Telling(ids, After(ids, run'), i, term, log, q, told) && After(ids, run').nodes[v].commit >= |log|
  {
    var s := After(ids, run);
    assert Caught(s, i, log, v);
    var req := RequestFor(s.nodes[i], i, v);
    Heard(s.nodes[i], s.nodes[v], i, v, log);
    var m := AppendReq(i, v, req);
    var sent := Send(ids, run, i, v, m);
    run' := Go(ids, sent, ReceiveAppend(m));
    TellingKept(ids, s, After(ids, run'), i, v, term, log, q, told);
  }

  lemma Send(ids: set<Id>, run: seq<Step>, i: Id, v: Id, m: Message) returns (run': seq<Step>)
    requires i in ids && v in ids && v != i && After(ids, run).nodes.Keys == ids
    requires After(ids, run).nodes[i].role == Leader
    requires var n := After(ids, run).nodes[i];
             v in n.nextIndex && 1 <= n.nextIndex[v] <= |n.log| + 1 && m == AppendReq(i, v, RequestFor(n, i, v))
    ensures run <= run' && m in After(ids, run').msgs && After(ids, run').nodes == After(ids, run).nodes
  {
    assert v in ids - {i};
    run' := Go(ids, run, Broadcast(i));
  }

  /** A follower that has everything hears how far the leader has committed. */
  lemma Heard(n: Node, f: Node, i: Id, v: Id, log: seq<Entry>)
    requires n.log == log && n.commit == |log| && v in n.nextIndex && n.nextIndex[v] == |log| + 1
    requires f.term <= n.term && Has(f.log, log, |log|)
    ensures var f' := HandleAppend(f, RequestFor(n, i, v)).0;
            f'.log == f.log && f'.commit >= |log| && f'.term == n.term
  {
    ShippedIs(n, i, v);
    AppendIs(f, RequestFor(n, i, v));
    assert RequestFor(n, i, v).entries == [];
  }

  lemma TellingKept(ids: set<Id>, s: Cluster, s': Cluster, i: Id, v: Id, term: nat, log: seq<Entry>, q: set<Id>,
      told: set<Id>)
    requires Telling(ids, s, i, term, log, q, told) && v in q && v != i && v !in told
    requires v in s'.nodes && s'.nodes == s.nodes[v := s'.nodes[v]]
    requires s'.nodes[v].log == s.nodes[v].log && s'.nodes[v].term <= term
    ensures Telling(ids, s', i, term, log, q, told) && Within(s, s', q)
  {
    forall w | w in q - {i} ensures Caught(s', i, log, w) { assert Caught(s, i, log, w); }
    forall w | w in told ensures Applied(s', w, log) { assert Applied(s, w, log); }
  }

  lemma TellOne(ids: set<Id>, run: seq<Step>, i: Id, v: Id, term: nat, log: seq<Entry>, q: set<Id>, told: set<Id>)
    returns (run': seq<Step>)
    requires Telling(ids, After(ids, run), i, term, log, q, told) && v in q && v !in told
    ensures run <= run' && Within(After(ids, run), After(ids, run'), q)
    ensures Telling(ids, After(ids, run'), i, term, log, q, told + {v})
  {
    var mid := run;
    if v != i {
      mid := Inform(ids, run, i, v, term, log, q, told);
      assert Caught(After(ids, mid), i, log, v);
    }
    run' := ApplyOne(ids, mid, v, log);
    AppliedKept(ids, After(ids, mid), After(ids, run'), i, v, term, log, q, told);
    WithinTwice(After(ids, run), After(ids, mid), After(ids, run'), q);
  }

  lemma AppliedKept(ids: set<Id>, s: Cluster, s': Cluster, i: Id, v: Id, term: nat, log: seq<Entry>, q: set<Id>,
      told: set<Id>)
    requires Telling(ids, s, i, term, log, q, told) && v in q && Only(s, s', v) && Applied(s', v, log)
    requires var n, n' := s.nodes[v], s'.nodes[v];
             && n'.log == n.log && n'.commit == n.commit && n'.term == n.term && n'.role == n.role
             && n'.matchIndex == n.matchIndex && n'.nextIndex == n.nextIndex
    ensures Telling(ids, s', i, term, log, q, told + {v}) && Within(s, s', q)
  {
    forall w | w in q - {i} ensures Caught(s', i, log, w) { assert Caught(s, i, log, w); }
    forall w | w in told + {v} ensures Applied(s', w, log) { if w != v { assert Applied(s, w, log); } }
  }

  lemma {:induction false} TellAll(ids: set<Id>, run: seq<Step>, i: Id, term: nat, log: seq<Entry>, q: set<Id>,
      told: set<Id>)
    returns (run': seq<Step>)
    requires Telling(ids, After(ids, run), i, term, log, q, told)
    ensures run <= run' && Within(After(ids, run), After(ids, run'), q)
    ensures Telling(ids, After(ids, run'), i, term, log, q, q)
    decreases q - told
  {
    if v :| v in q && v !in told {
      var mid := TellOne(ids, run, i, v, term, log, q, told);
      run' := TellAll(ids, mid, i, term, log, q, told + {v});
      WithinTwice(After(ids, run), After(ids, mid), After(ids, run'), q);
    } else {
      run' := run;
      assert told == q;
    }
  }

  /** A leader gets what a client proposes to every node of a quorum that is not ahead of it. */
  lemma Replicates(ids: set<Id>, run: seq<Step>, i: Id, term: nat, log: seq<Entry>, q: set<Id>, kind: EntryKind,
      payload: Bytes)
    returns (run': seq<Step>)
    requires Leading(ids, After(ids, run), i, term, log, q) && Quorum(ids, q)
    ensures run <= run' && Within(After(ids, run), After(ids, run'), q)
    ensures forall v :: v in q ==> Applied(After(ids, run'), v, log + [Entry(|log| + 1, term, kind, payload)])
  {
    var longer := log + [Entry(|log| + 1, term, kind, payload)];
    var a := Go(ids, run, ClientProposes(i, kind, payload));
    ProposedIs(ids, run, i, kind, payload);
    AfterNext(ids, run, ClientProposes(i, kind, payload));
    run' := Spread(ids, a, i, term, longer, q);
    WithinTwice(After(ids, run), After(ids, a), After(ids, run'), q);
  }

  /** Ship, commit, tell. */
  lemma Spread(ids: set<Id>, run: seq<Step>, i: Id, term: nat, log: seq<Entry>, q: set<Id>) returns (run': seq<Step>)
    requires Leading(ids, After(ids, run), i, term, log, q) && Quorum(ids, q)
    requires log != [] && log[|log| - 1].term == term
    ensures run <= run' && Within(After(ids, run), After(ids, run'), q)
    ensures forall v :: v in q ==> Applied(After(ids, run'), v, log)
  {
    var a := ShipAll(ids, run, i, term, log, q, {});
    var b := CommitIt(ids, a, i, term, log, q);
    run' := TellAll(ids, b, i, term, log, q, {});
    WithinTwice(After(ids, run), After(ids, a), After(ids, b), q);
    WithinTwice(After(ids, run), After(ids, b), After(ids, run'), q);
  }

  /** Progress: whatever has happened, a quorum can go on by itself. It can elect any of its members whose
      log is not behind, and a client's command then gets to the state machine of each of them, at the same
      position, behind everything that member had in its log. */
  lemma QuorumGoesOn(ids: set<Id>, run: seq<Step>, i: Id, q: set<Id>, kind: EntryKind, payload: Bytes)
    returns (run': seq<Step>)
    requires Quorum(ids, q) && i in q && |ids| >= 2 && NotBehind(After(ids, run), i, q)
    ensures run <= run' && Within(After(ids, run), After(ids, run'), q)
    ensures var log, s' := After(ids, run).nodes[i].log, After(ids, run');
            forall v :: v in q ==>
              && v in s'.nodes && |s'.nodes[v].output| >= |log| + 2 && log <= s'.nodes[v].output
              && s'.nodes[v].output[|log| + 1].kind == kind && s'.nodes[v].output[|log| + 1].payload == payload
  {
    var log := After(ids, run).nodes[i].log;
    var mid, term := Elects(ids, run, i, q);
    var led := log + [Entry(|log| + 1, term, Noop, [])];
    run' := Replicates(ids, mid, i, term, led, q, kind, payload);
    WithinTwice(After(ids, run), After(ids, mid), After(ids, run'), q);
    forall v | v in q
      ensures v in After(ids, run').nodes && HasLog(After(ids, run').nodes[v].output, log, term, kind, payload)
    {
      assert Applied(After(ids, run'), v, led + [Entry(|led| + 1, term, kind, payload)]);
    }
  }

  ghost predicate HasLog(output: seq<Entry>, log: seq<Entry>, term: nat, kind: EntryKind, payload: Bytes) {
    && |output| >= |log| + 2 && log <= output
    && output[|log| + 1] == Entry(|log| + 2, term, kind, payload)
  }

  /** In any set of nodes somebody's log is not behind. */
  lemma {:induction false} SomebodyIsAhead(s: Cluster, q: set<Id>) returns (i: Id)
    requires q <= s.nodes.Keys && q != {}
    ensures i in q && NotBehind(s, i, q)
  {
    var v :| v in q;
    if q - {v} == {} {
      i := v;
      assert q == {v};
    } else {
      var w := SomebodyIsAhead(s, q - {v});
      i := if AtLeast(LastOf(s.nodes[v].log), LastOf(s.nodes[w].log)) then v else w;
      forall u | u in q ensures AtLeast(LastOf(s.nodes[i].log), LastOf(s.nodes[u].log)) {
        if u != v { assert u in q - {v}; }
      }
    }
  }

  /** So from every reachable cluster every quorum can get every command applied. */
  lemma CommandsGetThrough(ids: set<Id>, run: seq<Step>, q: set<Id>, kind: EntryKind, payload: Bytes)
    returns (run': seq<Step>, k: nat)
    requires Quorum(ids, q) && |ids| >= 2
    ensures run <= run' && Within(After(ids, run), After(ids, run'), q)
    ensures forall v :: v in q ==>
              && v in After(ids, run').nodes && k < |After(ids, run').nodes[v].output|
              && After(ids, run').nodes[v].output[k].kind == kind
                 && After(ids, run').nodes[v].output[k].payload == payload
  {
    Members(ids, run);
    var i := SomebodyIsAhead(After(ids, run), q);
    run' := QuorumGoesOn(ids, run, i, q, kind, payload);
    k := |After(ids, run).nodes[i].log| + 1;
  }

  // ---- Alone ----

  lemma NoMail(i: Id, run: seq<Step>)
    ensures After({i}, run).msgs == {}
  {
    RaftSafety.AlwaysInv({i}, run);
    MailIsBetween({i}, After({i}, run));
  }

  lemma MailIsBetween(ids: set<Id>, s: Cluster)
    requires Inv(ids, s)
    ensures forall m :: m in s.msgs ==> m.from in ids && m.to in ids && m.from != m.to
  {
    forall m | m in s.msgs ensures m.from in ids && m.to in ids && m.from != m.to { assert MessageOk(ids, m, s.h); }
  }

  /** With one node only it is otherwise: votes are counted when an answer comes, so nobody ever leads. */
  lemma {:induction false} LoneNodeNeverLeads(i: Id, run: seq<Step>)
    ensures i in After({i}, run).nodes && After({i}, run).nodes[i].role != Leader
  {
    Members({i}, run);
    if run != [] {
      var before, step := run[..|run| - 1], run[|run| - 1];
      LoneNodeNeverLeads(i, before);
      NoMail(i, before);
      if Enabled({i}, After({i}, before), step) { StaysBehind(i, After({i}, before), step); }
    }
  }

  lemma StaysBehind(i: Id, s: Cluster, step: Step)
    requires Enabled({i}, s, step) && s.msgs == {} && s.nodes[i].role != Leader
    ensures i in Do({i}, s, step).nodes && Do({i}, s, step).nodes[i].role != Leader
  {}
}
