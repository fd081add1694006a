/** The replicated log of one Raft node: `entries_` with 1-based indices, the
    follower-side merge of a leader's entries, and the facts about that merge
    that the protocol proof needs. */
module RaftLog {
  import opened ByteStrings

  datatype EntryKind =
    | TxnBegin | TxnWrite | TxnDelete | TxnPrepare | TxnCommit | TxnAbort | Noop | TxnPrepareBatch

  datatype Entry = Entry(index: nat, term: nat, kind: EntryKind, payload: Bytes)

  /** Entry i (0-based) carries index i+1. Every log of the system has this shape. */
  ghost predicate Indexed(log: seq<Entry>) {
    forall i :: 0 <= i < |log| ==> log[i].index == i + 1
  }

  /** The term at a 1-based index; 0 outside the log. */
  function TermAt(log: seq<Entry>, index: nat): nat {
    if 1 <= index <= |log| then log[index - 1].term else 0
  }

  function LastTerm(log: seq<Entry>): nat {
    TermAt(log, |log|)
  }

  /** One iteration of the follower's merge loop: skip an entry already present with the
      same term, cut the log at a conflicting one, append at the end, ignore a gap.
      Index 0, which no leader sends, is ignored like a gap. */
  function MergeOne(log: seq<Entry>, e: Entry): seq<Entry> {
    if 1 <= e.index <= |log| then
      if log[e.index - 1].term == e.term then log else log[..e.index - 1] + [e]
    else if e.index == |log| + 1 then log + [e]
    else log
  }

  function Merge(log: seq<Entry>, entries: seq<Entry>): seq<Entry>
    decreases |entries|
  {
    if entries == [] then log else Merge(MergeOne(log, entries[0]), entries[1..])
  }

  /** No entry with index 0 meets a log that is not empty; the loop would look for it in front of the
      first entry. On an empty log such an entry is ignored. */
  predicate InBounds(log: seq<Entry>, entries: seq<Entry>)
    decreases |entries|
  {
    entries == [] || ((entries[0].index >= 1 || log == []) && InBounds(MergeOne(log, entries[0]), entries[1..]))
  }

  /** `log` starts with the first k entries of `line`. */
  ghost predicate Has(log: seq<Entry>, line: seq<Entry>, k: nat) {
    k <= |log| && k <= |line| && forall i :: 0 <= i < k ==> log[i] == line[i]
  }

  /** Two logs that agree on the term at an index agree on everything up to it
      (the log matching property of section 5.3 of the Raft paper). */
  ghost predicate Matching(a: seq<Entry>, b: seq<Entry>) {
    forall i :: 0 <= i < |a| && i < |b| && a[i].term == b[i].term ==> Has(a, b, i + 1)
  }

  /** What a follower's merge yields when the entries are a stretch of the leader's log `line`
      that starts where the follower already agrees: the log is untouched if it already
      contains the stretch, and otherwise becomes exactly the leader's log up to its end. */
  lemma {:induction false} MergeWithLeader(log: seq<Entry>, line: seq<Entry>, prev: nat, entries: seq<Entry>)
    requires Indexed(line) && Matching(log, line)
    requires prev + |entries| <= |line| && entries == line[prev..prev + |entries|]
    requires Has(log, line, prev)
    ensures Merge(log, entries) ==
            if Has(log, line, prev + |entries|) then log else line[..prev + |entries|]
    decreases |entries|
  {
    assert forall i | 0 <= i < |entries| :: entries[i] == line[prev + i];
    if entries != [] {
      var log1 := MergeOne(log, line[prev]);
      if prev < |log| && log[prev].term == line[prev].term {
        assert Has(log, line, prev + 1);
        assert log1 == log;
        MergeWithLeader(log, line, prev + 1, entries[1..]);
      } else {
        assert log1 == line[..prev + 1];
        MergeWithLeader(log1, line, prev + 1, entries[1..]);
      }
    }
  }

  lemma MergedKeeps(log: seq<Entry>, merged: seq<Entry>, line: seq<Entry>, m: nat, base: seq<Entry>, k: nat)
    requires m <= |line| && merged == (if Has(log, line, m) then log else line[..m])
    requires Has(log, base, k) && Has(line, base, k)
    ensures Has(merged, base, k)
  {
    if m <= k { assert Has(log, line, m); }
  }

  /** Nothing that the follower and the leader already share is lost by the merge. */
  lemma MergeKeeps(log: seq<Entry>, line: seq<Entry>, prev: nat, entries: seq<Entry>, base: seq<Entry>, k: nat)
    requires Indexed(line) && Matching(log, line)
    requires prev + |entries| <= |line| && entries == line[prev..prev + |entries|]
    requires Has(log, line, prev)
    requires Has(log, base, k) && Has(line, base, k)
    ensures Has(Merge(log, entries), base, k)
  {
    MergeWithLeader(log, line, prev, entries);
    MergedKeeps(log, Merge(log, entries), line, prev + |entries|, base, k);
  }

  /** Delivering the same stretch twice changes nothing the second time. */
  lemma MergeIdempotent(log: seq<Entry>, line: seq<Entry>, prev: nat, entries: seq<Entry>)
    requires Indexed(line) && Matching(log, line)
    requires prev + |entries| <= |line| && entries == line[prev..prev + |entries|]
    requires Has(log, line, prev)
    ensures Merge(Merge(log, entries), entries) == Merge(log, entries)
  {
    MergeWithLeader(log, line, prev, entries);
    MergeWithLeader(Merge(log, entries), line, prev, entries);
  }
}
