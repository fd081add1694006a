/** The shard's handlers and the coordinator's recovery loops, in place, proved against the
    functions of TwoPhaseCommit. */
module TwoPhaseService {
  import opened TwoPhaseCommit
  import R = TwoPhaseRecovery

  class ShardService {
    var pending: map<TxnId, bool>
    var terminal: map<TxnId, bool>

    ghost function View(): Participant reads this {
      Participant(pending, terminal)
    }

    constructor ()
      ensures View() == Participant(map[], map[])
    {
      pending, terminal := map[], map[];
    }

    method Begin(t: TxnId)
      modifies this
      ensures View() == OnBegin(old(View()), t) && pending == old(pending)[t := false] && terminal == old(terminal)
    {
      pending := pending[t := false];
    }

    /** `validated` is the outcome of the local Prepare of a transaction that is still active. */
    method Prepare(t: TxnId, hasLeader: bool, validated: bool, replicated: bool, resultFound: bool) returns (vote: bool)
      modifies this
      ensures var outcome := if !hasLeader then NoLeader else if !validated || !replicated then Fails
                             else if !resultFound then ResultMissing else Succeeds;
              (View(), vote) == OnPrepare(old(View()), t, outcome)
      ensures vote <==>
              hasLeader && t in old(pending) && !old(pending)[t] && validated && replicated && resultFound
      ensures var thrownAway := hasLeader && t in old(pending) && (old(pending)[t] || !validated || !replicated);
              pending == if vote then old(pending)[t := true]
                         else if thrownAway then old(pending) - {t}
                         else old(pending)
      ensures terminal == old(terminal)
    {
      if !hasLeader { return false; }
      if t !in pending { return false; }
      var localPrepare := !pending[t] && validated;
      if !localPrepare {
        pending := pending - {t};
        return false;
      }
      if !replicated {
        pending := pending - {t};
        return false;
      }
      if !resultFound { return false; }
      pending := pending[t := true];
      vote := true;
    }

    method Commit(t: TxnId, hasLeader: bool, replicated: bool) returns (ok: bool)
      modifies this
      ensures ok == (hasLeader && replicated)
      ensures View() == if ok then OnCommit(old(View()), t) else old(View())
      ensures ok ==> t !in pending && t in terminal && terminal[t]
    {
      if !hasLeader { return false; }
      ok := replicated;
      if ok {
        pending := pending - {t};
        terminal := terminal[t := true];
      }
    }

    /** A transaction that is not prepared is aborted locally, without the log. */
    method Abort(t: TxnId, hasLeader: bool, replicated: bool) returns (ok: bool)
      modifies this
      ensures var local := t in old(pending) && !old(pending)[t];
              && (ok <==> !hasLeader || local || replicated)
              && View() == (if hasLeader && ok then OnAbort(old(View()), t) else old(View()))
              && (hasLeader && ok ==> t !in pending && t in terminal && !terminal[t])
    {
      if !hasLeader { return true; }
      if t in pending && !pending[t] {
        pending := pending - {t};
        terminal := terminal[t := false];
        return true;
      }
      ok := replicated;
      if ok {
        pending := pending - {t};
        terminal := terminal[t := false];
      }
    }

    /** `applied` says that the state machine has t prepared; it counts only if the tables know nothing. */
    method QueryState(t: TxnId, applied: bool) returns (state: StateCode)
      ensures state == if Query(View(), t) == Unknown && applied then Prepared else Query(View(), t)
      ensures state == Committed <==> t in terminal && terminal[t]
      ensures state == Aborted <==> t in terminal && !terminal[t]
      ensures state == InFlight <==> t !in terminal && t in pending && !pending[t]
      ensures state == Prepared <==> t !in terminal && if t in pending then pending[t] else applied
    {
      if t in terminal { return if terminal[t] then Committed else Aborted; }
      if t in pending { return if pending[t] then Prepared else InFlight; }
      state := if applied then Prepared else Unknown;
    }
  }

  /** The first loop of recovery: one pass over the records builds the view of every transaction. */
  method CollectSeen(records: seq<Record>) returns (states: map<TxnId, Seen>)
    ensures forall t :: t in states <==> exists i :: 0 <= i < |records| && records[i].txn == t
    ensures forall t :: t in states ==> states[t] == Replay(records, t)
    ensures forall t :: t !in states ==> Replay(records, t) == NOTHING_SEEN
  {
    states := map[];
    var i := 0;
    while i < |records|
      invariant i <= |records|
      invariant forall t :: t in states <==> exists j :: 0 <= j < i && records[j].txn == t
      invariant forall t {:trigger Replay(records[..i], t)} :: Replay(records[..i], t) == if t in states then states[t]
                else NOTHING_SEEN
    {
      var r := records[i];
      assert records[..i + 1][..i] == records[..i] && records[..i + 1][i] == r;
      var seen := if r.txn in states then states[r.txn] else NOTHING_SEEN;
      assert seen == Replay(records[..i], r.txn);
      states := states[r.txn := Note(seen, r)];
      i := i + 1;
    }
    assert records[..i] == records;
  }

  /** The decision loop of recovery over the shards of one transaction. */
  method DecideOutcome(seen: Seen, shards: seq<Shard>, answers: map<Shard, StateCode>) returns (commit: bool)
    requires seen.shards == (set x | x in shards) && forall x :: x in shards ==> x in answers
    ensures commit == DriveToCommit(seen, answers)
    ensures commit <==> seen.committing || (!seen.aborting && R.SayCommit(seen.shards, answers))
  {
    if seen.committing { return true; }
    if seen.aborting { return false; }
    var anyAborted, anyCommitted, allPrepared := false, false, true;
    var i := 0;
    while i < |shards|
      invariant i <= |shards|
      invariant anyAborted <==> exists j :: 0 <= j < i && answers[shards[j]] == Aborted
      invariant anyCommitted <==> exists j :: 0 <= j < i && answers[shards[j]] == Committed
      invariant allPrepared <==> forall j :: 0 <= j < i ==>
                answers[shards[j]] == Prepared || answers[shards[j]] == Committed
    {
      var ss := answers[shards[i]];
      if ss == Aborted { anyAborted := true; }
      if ss == Committed { anyCommitted := true; }
      if ss != Prepared && ss != Committed { allPrepared := false; }
      i := i + 1;
    }
    assert forall x :: x in seen.shards <==> exists j :: 0 <= j < |shards| && shards[j] == x;
    if anyAborted { return false; }
    commit := allPrepared || anyCommitted;
  }
}
