/** The safety theorems, stated about what nodes show at any two moments of any run. */
module RaftSafety {
  import opened ByteStrings
  import opened RaftLog
  import opened RaftNode
  import opened RaftProtocol
  import opened RaftInvariant
  import opened RaftSteps
  import RaftElections
  import RaftReplication

  lemma StartOk(ids: set<Id>)
    ensures Inv(ids, Start(ids))
  {
    forall i | i in ids ensures NodeOk(ids, i, Start(ids).nodes[i], Start(ids).h) {}
  }

  lemma StepKeepsInv(ids: set<Id>, s: Cluster, step: Step)
    requires Inv(ids, s) && Enabled(ids, s, step)
    ensures Inv(ids, Do(ids, s, step))
  {
    match step
    case ElectionTimeout(n) => RaftElections.TimeoutStep(ids, s, n);
    case ReceiveVote(m) =>
      if HandleVote(s.nodes[m.to], m.vreq).1.granted { RaftElections.VoteGrantedStep(ids, s, m); }
      else { VoteRefusedStep(ids, s, m); }
    case ReceiveVoteReply(m) =>
      if Do(ids, s, step).nodes[m.to].role == Leader && s.nodes[m.to].role != Leader {
        RaftReplication.WinStep(ids, s, m);
      }
      else { VoteCountedStep(ids, s, m); }
    case Broadcast(n) => BroadcastStep(ids, s, n);
    case ReceiveAppend(m) =>
      if HandleAppend(s.nodes[m.to], m.areq).1.success { RaftReplication.AppendAcceptedStep(ids, s, m); }
      else { AppendRefusedStep(ids, s, m); }
    case ReceiveAppendReply(m) => AppendReplyStep(ids, s, m);
    case AppendCallFailed(n, peer) => CallFailedStep(ids, s, n, peer);
    case TickCommit(n) => TickStep(ids, s, n);
    case ClientProposes(n, kind, payload) => RaftReplication.ProposeStep(ids, s, n, kind, payload);
    case Apply(n) => ApplyStep(ids, s, n);
    case LoseQuorum(n) => LoseQuorumStep(ids, s, n);
    case CrashRestart(n) => CrashStep(ids, s, n);
  }

  lemma {:induction false} AlwaysInv(ids: set<Id>, run: seq<Step>)
    ensures Inv(ids, After(ids, run))
  {
    if run == [] {
      StartOk(ids);
    } else {
      AlwaysInv(ids, run[..|run| - 1]);
      if Enabled(ids, After(ids, run[..|run| - 1]), run[|run| - 1]) {
        StepKeepsInv(ids, After(ids, run[..|run| - 1]), run[|run| - 1]);
      }
    }
  }

  lemma WinExtends(ids: set<Id>, s: Cluster, m: Message)
    requires Inv(ids, s) && Enabled(ids, s, ReceiveVoteReply(m))
    ensures Extends(s.h, Do(ids, s, ReceiveVoteReply(m)).h)
  {
    var s' := Do(ids, s, ReceiveVoteReply(m));
    if s'.nodes[m.to].role == Leader && s.nodes[m.to].role != Leader {
      assert NodeOk(ids, m.to, s.nodes[m.to], s.h);
      assert MessageOk(ids, m, s.h);
      RaftReplication.WinningTally(ids, s.nodes[m.to], s.h, m);
      RaftReplication.FirstWinner(ids, s, m.to, s'.nodes[m.to].votes);
    }
  }

  lemma ProposeExtends(ids: set<Id>, s: Cluster, n: Id, kind: EntryKind, payload: Bytes)
    requires Inv(ids, s) && Enabled(ids, s, ClientProposes(n, kind, payload))
    ensures Extends(s.h, Do(ids, s, ClientProposes(n, kind, payload)).h)
  {
    assert NodeOk(ids, n, s.nodes[n], s.h);
    assert ElectionOk(ids, s.nodes[n].term, s.nodes, s.h);
  }

  lemma StepExtends(ids: set<Id>, s: Cluster, step: Step)
    requires Inv(ids, s) && Enabled(ids, s, step)
    ensures Extends(s.h, Do(ids, s, step).h)
  {
    match step
    case ReceiveVoteReply(m) => WinExtends(ids, s, m);
    case ClientProposes(n, kind, payload) => ProposeExtends(ids, s, n, kind, payload);
    case _ => QuietExtends(ids, s, step, Do(ids, s, step).h);
  }

  lemma SmallExtends(h: History)
    ensures forall v, t, g {:trigger Vote(h, v, t, g)} :: Extends(h, Vote(h, v, t, g))
    ensures forall p, t, i {:trigger Ack(h, p, t, i)} :: Extends(h, Ack(h, p, t, i))
    ensures forall p, ps, n, n' {:trigger Committed(h, p, ps, n, n')} :: Extends(h, Committed(h, p, ps, n, n'))
    ensures Extends(h, h)
  {}

  /** The other steps only add a vote, an acknowledgement or a commit. */
  lemma QuietExtends(ids: set<Id>, s: Cluster, step: Step, h': History)
    requires Enabled(ids, s, step) && !step.ReceiveVoteReply? && !step.ClientProposes? && h' == Do(ids, s, step).h
    ensures Extends(s.h, h')
  {
    SmallExtends(s.h);
  }

  /** What is on record at one moment of a run is on record at its end. */
  lemma {:induction false} RecordsStay(ids: set<Id>, run: seq<Step>, j: nat)
    requires j <= |run|
    ensures Extends(After(ids, run[..j]).h, After(ids, run).h)
  {
    if j == |run| {
      assert run[..j] == run;
    } else {
      var shorter := run[..|run| - 1];
      RecordsStay(ids, shorter, j);
      assert shorter[..j] == run[..j];
      AlwaysInv(ids, shorter);
      if Enabled(ids, After(ids, shorter), run[|run| - 1]) {
        StepExtends(ids, After(ids, shorter), run[|run| - 1]);
        ExtendsTransitive(After(ids, run[..j]).h, After(ids, shorter).h, After(ids, run).h);
      }
    }
  }

  lemma ExtendsTransitive(a: History, b: History, c: History)
    requires Extends(a, b) && Extends(b, c)
    ensures Extends(a, c)
  {}

  /** The node i at moment j of the run. */
  function NodeAt(ids: set<Id>, run: seq<Step>, j: nat, i: Id): Node
    requires j <= |run| && i in After(ids, run[..j]).nodes
  {
    After(ids, run[..j]).nodes[i]
  }

  /** Election safety: whoever leads a term, at whatever moment, is the same node. */
  lemma ElectionSafety(ids: set<Id>, run: seq<Step>, j: nat, k: nat, a: Id, b: Id)
    requires j <= |run| && k <= |run| && a in After(ids, run[..j]).nodes && b in After(ids, run[..k]).nodes
    requires NodeAt(ids, run, j, a).role == Leader && NodeAt(ids, run, k, b).role == Leader
    requires NodeAt(ids, run, j, a).term == NodeAt(ids, run, k, b).term
    ensures a == b
  {
    LeaderOnRecord(ids, run, j, a);
    LeaderOnRecord(ids, run, k, b);
  }

  lemma LeaderOnRecord(ids: set<Id>, run: seq<Step>, j: nat, a: Id)
    requires j <= |run| && a in After(ids, run[..j]).nodes && NodeAt(ids, run, j, a).role == Leader
    ensures var n, h := NodeAt(ids, run, j, a), After(ids, run).h;
            n.term in h.elected && h.elected[n.term].leader == a && n.term in h.line &&
            Has(h.line[n.term], n.log, |n.log|) && Has(n.log, h.elected[n.term].log, |h.elected[n.term].log|)
  {
    var s, n := After(ids, run[..j]), NodeAt(ids, run, j, a);
    AlwaysInv(ids, run[..j]);
    RecordsStay(ids, run, j);
    assert NodeOk(ids, a, n, s.h);
    assert ElectionOk(ids, n.term, s.nodes, s.h);
  }

  /** What a node counts as committed at moment j is covered by a commit on record at the end. */
  lemma CommitOnRecord(ids: set<Id>, run: seq<Step>, j: nat, a: Id) returns (c: Commit)
    requires j <= |run| && a in After(ids, run[..j]).nodes && NodeAt(ids, run, j, a).commit > 0
    ensures var n, h := NodeAt(ids, run, j, a), After(ids, run).h;
            c in h.commits && n.commit <= |n.log| && CoveredBy(h, c, n.log, n.commit, n.term)
  {
    var s, n := After(ids, run[..j]), NodeAt(ids, run, j, a);
    AlwaysInv(ids, run[..j]);
    RecordsStay(ids, run, j);
    assert NodeOk(ids, a, n, s.h);
    c :| c in s.h.commits && CoveredBy(s.h, c, n.log, n.commit, n.term);
  }

  /** Leader completeness: everything below the commit index of any node at any moment is in the
      log of every node that ever leads a later term. */
  lemma CommittedInLaterLeaders(ids: set<Id>, run: seq<Step>, j: nat, k: nat, a: Id, b: Id)
    requires j <= |run| && k <= |run| && a in After(ids, run[..j]).nodes && b in After(ids, run[..k]).nodes
    requires NodeAt(ids, run, k, b).role == Leader && NodeAt(ids, run, j, a).term < NodeAt(ids, run, k, b).term
    ensures Has(NodeAt(ids, run, k, b).log, NodeAt(ids, run, j, a).log, NodeAt(ids, run, j, a).commit)
  {
    if NodeAt(ids, run, j, a).commit > 0 {
      var c := CommitOnRecord(ids, run, j, a);
      LeaderOnRecord(ids, run, k, b);
      AlwaysInv(ids, run);
      LeaderCompleteness(ids, After(ids, run), c, NodeAt(ids, run, k, b).term);
    }
  }

  /** State machine safety: the entries that any two nodes handed to their state machines, at any
      moments and in any incarnations, agree index by index. */
  lemma StateMachineSafety(ids: set<Id>, run: seq<Step>, j: nat, k: nat, a: Id, b: Id, i: nat)
    requires j <= |run| && k <= |run| && a in After(ids, run[..j]).nodes && b in After(ids, run[..k]).nodes
    requires i < |NodeAt(ids, run, j, a).output| && i < |NodeAt(ids, run, k, b).output|
    ensures NodeAt(ids, run, j, a).output[i] == NodeAt(ids, run, k, b).output[i]
  {
    AppliedFromLog(ids, run, j, a);
    AppliedFromLog(ids, run, k, b);
    var c := CommitOnRecord(ids, run, j, a);
    var d := CommitOnRecord(ids, run, k, b);
    AlwaysInv(ids, run);
    CommitsAgree(ids, After(ids, run), c, d, i);
  }

  /** Each incarnation applies indices 1, 2, 3, ... in order, from the committed part of its log. */
  lemma AppliedFromLog(ids: set<Id>, run: seq<Step>, j: nat, a: Id)
    requires j <= |run| && a in After(ids, run[..j]).nodes
    ensures var n := NodeAt(ids, run, j, a);
            && |n.output| == n.applied <= n.commit <= |n.log| && n.output == n.log[..n.applied]
            && forall i :: 0 <= i < |n.output| ==> n.output[i].index == i + 1
  {
    AlwaysInv(ids, run[..j]);
    assert NodeOk(ids, a, NodeAt(ids, run, j, a), After(ids, run[..j]).h);
  }

  /** Between restarts a node only adds to what it has applied. */
  lemma OutputOnlyGrows(ids: set<Id>, s: Cluster, step: Step, a: Id)
    requires Inv(ids, s) && Enabled(ids, s, step) && a in ids && step != CrashRestart(a)
    ensures a in Do(ids, s, step).nodes && Has(Do(ids, s, step).nodes[a].output, s.nodes[a].output, |s.nodes[a].output|)
  {
    assert NodeOk(ids, a, s.nodes[a], s.h);
  }

  /** Log matching: logs of any two nodes at any moments that share an index and term are equal
      up to it. */
  lemma LogMatching(ids: set<Id>, run: seq<Step>, j: nat, k: nat, a: Id, b: Id)
    requires j <= |run| && k <= |run| && a in After(ids, run[..j]).nodes && b in After(ids, run[..k]).nodes
    ensures Matching(NodeAt(ids, run, j, a).log, NodeAt(ids, run, k, b).log)
  {
    LogOnRecord(ids, run, j, a);
    LogOnRecord(ids, run, k, b);
    LinesMatch(NodeAt(ids, run, j, a).log, NodeAt(ids, run, k, b).log, After(ids, run).h.line);
  }

  lemma LogOnRecord(ids: set<Id>, run: seq<Step>, j: nat, a: Id)
    requires j <= |run| && a in After(ids, run[..j]).nodes
    ensures OnLines(NodeAt(ids, run, j, a).log, After(ids, run).h.line)
  {
    AlwaysInv(ids, run[..j]);
    RecordsStay(ids, run, j);
    assert NodeOk(ids, a, NodeAt(ids, run, j, a), After(ids, run[..j]).h);
    OnLinesGrows(NodeAt(ids, run, j, a).log, After(ids, run[..j]).h, After(ids, run).h);
  }

  lemma MergedTwice(log: seq<Entry>, r: AppendRequest, h: History)
    requires OnLines(log, h.line) && RaftReplication.FromLine(r, h) && RaftReplication.Fits(log, r)
    ensures Merge(Merge(log, r.entries), r.entries) == Merge(log, r.entries)
  {
    RaftReplication.AcceptedLog(log, r, h);
    MergeIdempotent(log, h.line[r.term], r.prevIndex, r.entries);
  }

  lemma DeliveredLog(n: Node, r: AppendRequest)
    ensures HandleAppend(n, r).0.log == if HandleAppend(n, r).1.success then Merge(n.log, r.entries) else n.log
    ensures HandleAppend(n, r).1.success ==> RaftReplication.Fits(n.log, r)
  {}

  lemma SecondDelivery(n: Node, r: AppendRequest, h: History)
    requires OnLines(n.log, h.line) && RaftReplication.FromLine(r, h)
    ensures var m := HandleAppend(n, r).0;
            HandleAppend(m, r).0.log == m.log
  {
    DeliveredLog(n, r);
    DeliveredLog(HandleAppend(n, r).0, r);
    if HandleAppend(n, r).1.success { MergedTwice(n.log, r, h); }
  }

  /** A request never announces a commit index beyond the entries it carries or checks, and
      delivering it again leaves the follower's log as the first delivery left it. */
  lemma RequestsAreSafe(ids: set<Id>, run: seq<Step>, m: Message)
    requires m in After(ids, run).msgs && m.AppendReq?
    ensures m.areq.leaderCommit <= m.areq.prevIndex + |m.areq.entries| && m.to in After(ids, run).nodes
    ensures var n := HandleAppend(After(ids, run).nodes[m.to], m.areq).0;
            HandleAppend(n, m.areq).0.log == n.log
  {
    var s := After(ids, run);
    AlwaysInv(ids, run);
    assert MessageOk(ids, m, s.h);
    RaftReplication.RequestFromLine(ids, s, m.areq, m.from);
    assert NodeOk(ids, m.to, s.nodes[m.to], s.h);
    SecondDelivery(s.nodes[m.to], m.areq, s.h);
  }
}
