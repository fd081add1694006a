/** The log and the node as objects that update their fields in place, each method proved against
    the functions that the protocol runs on. */
module RaftServer {
  import opened ByteStrings
  import opened RaftLog
  import opened RaftNode
  import F = RaftLogFormat
  import Framing

  /** `entries_` in memory and the copy of it in the log file. */
  class Log {
    var entries: seq<Entry>
    var file: seq<Entry>

    ghost predicate Valid() reads this {
      Indexed(entries) && file == entries
    }

    constructor ()
      ensures Valid() && entries == []
    {
      entries, file := [], [];
    }

    /** Reopen a log file. */
    constructor Load(file: seq<Entry>)
      ensures entries == file && (Indexed(file) ==> Valid())
    {
      entries, this.file := file, file;
    }

    method LastIndex() returns (r: nat)
      requires Valid()
      ensures r == |entries|
    {
      r := if entries == [] then 0 else entries[|entries| - 1].index;
    }

    method TermAtIndex(index: nat) returns (r: nat)
      requires Valid()
      ensures r == TermAt(entries, index)
    {
      if index == 0 || entries == [] { return 0; }
      var first := entries[0].index;
      if index < first || index > entries[|entries| - 1].index { return 0; }
      r := entries[index - first].term;
    }

    method Get(index: nat) returns (r: Option<Entry>)
      requires Valid()
      ensures r == if 1 <= index <= |entries| then Some(entries[index - 1]) else None
    {
      if index == 0 || entries == [] || index > entries[|entries| - 1].index { return None; }
      if index < entries[0].index { return None; }
      r := Some(entries[index - entries[0].index]);
    }

    method GetRange(start: nat, end: nat) returns (r: seq<Entry>)
      requires Valid()
      ensures r == if 1 <= start <= Min(end, |entries|) then entries[start - 1..Min(end, |entries|)] else []
    {
      r := [];
      if entries == [] || start == 0 || end < start { return; }
      var first, last := entries[0].index, entries[|entries| - 1].index;
      var e := Min(end, last);
      var i := Max(start, first);
      while i <= e
        invariant start <= i
        invariant if r == [] then i == start else i <= e + 1 && r == entries[start - 1..i - 1]
        decreases e as int - i
      {
        r := r + [entries[i - first]];
        i := i + 1;
      }
    }

    method Append(term: nat, kind: EntryKind, payload: Bytes) returns (index: nat)
      requires Valid()
      modifies this
      ensures Valid() && index == |old(entries)| + 1
      ensures entries == old(entries) + [Entry(index, term, kind, payload)]
    {
      index := if entries == [] then 1 else entries[|entries| - 1].index + 1;
      var e := Entry(index, term, kind, payload);
      file := file + [e];
      entries := entries + [e];
    }

    method TruncateFrom(index: nat)
      requires Valid()
      modifies this
      ensures Valid()
      ensures entries == if 1 <= index <= |old(entries)| then old(entries)[..index - 1] else old(entries)
    {
      if entries == [] || index == 0 || index > entries[|entries| - 1].index { return; }
      entries := entries[..index - entries[0].index];
      file := entries;
    }

    /** One round of the loop below. Entries go to the file one by one until the first cut; from
        then on the file is stale. */
    method TakeEntry(e: Entry, stale: bool) returns (nowStale: bool)
      requires Indexed(entries) && (!stale ==> file == entries) && (e.index >= 1 || entries == [])
      modifies this
      ensures Indexed(entries) && entries == MergeOne(old(entries), e) && (!nowStale ==> file == entries)
    {
      nowStale := stale;
      if entries != [] && e.index <= entries[|entries| - 1].index {
        var off := e.index - entries[0].index;
        if entries[off].term == e.term { return; }
        entries := entries[..off];
        nowStale := true;
      }
      var next := if entries == [] then 1 else entries[|entries| - 1].index + 1;
      if e.index == next {
        if !nowStale { file := file + [e]; }
        entries := entries + [e];
      }
    }

    /** Skip what is there, cut at a conflict, append the rest; rewrite a stale file at the end. */
    method AppendEntries(incoming: seq<Entry>)
      requires Valid() && InBounds(entries, incoming)
      modifies this
      ensures Valid() && entries == Merge(old(entries), incoming)
    {
      var needsRewrite := false;
      var i := 0;
      while i < |incoming|
        invariant i <= |incoming| && Indexed(entries)
        invariant !needsRewrite ==> file == entries
        invariant Merge(entries, incoming[i..]) == Merge(old(entries), incoming) && InBounds(entries, incoming[i..])
      {
        assert incoming[i..][0] == incoming[i] && incoming[i..][1..] == incoming[i + 1..];
        needsRewrite := TakeEntry(incoming[i], needsRewrite);
        i := i + 1;
      }
      if needsRewrite { file := entries; }
    }
  }

  /** The elements of a list of node ids. */
  ghost function Elems(s: seq<Id>): (r: set<Id>)
    ensures forall x :: x in r <==> x in s
  {
    if s == [] then {} else Elems(s[..|s| - 1]) + {s[|s| - 1]}
  }

  /** The map with every listed key set to v, one after the other. */
  ghost function SetAll(m: map<Id, nat>, s: seq<Id>, v: nat): map<Id, nat> {
    if s == [] then m else SetAll(m, s[..|s| - 1], v)[s[|s| - 1] := v]
  }

  lemma {:induction false} SetAllIsSum(m: map<Id, nat>, s: seq<Id>, v: nat)
    ensures SetAll(m, s, v) == m + ForAll(Elems(s), v)
  {
    if s != [] { SetAllIsSum(m, s[..|s| - 1], v); }
  }

  /** Counting one more peer. */
  lemma ReplicatedStep(n: Node, s: set<Id>, p: Id, k: nat)
    requires p !in s
    ensures |Replicated(n, s + {p}, k)| ==
            |Replicated(n, s, k)| + if p in n.matchIndex && n.matchIndex[p] >= k then 1 else 0
  {
    var before, after := Replicated(n, s, k), Replicated(n, s + {p}, k);
    if p in n.matchIndex && n.matchIndex[p] >= k {
      assert after == before + {p};
    } else {
      assert after == before;
    }
  }

  ghost predicate Distinct(s: seq<Id>) {
    forall i, j :: 0 <= i < j < |s| ==> s[i] != s[j]
  }

  lemma ElemsStep(s: seq<Id>, i: nat)
    requires i < |s|
    ensures Elems(s[..i + 1]) == Elems(s[..i]) + {s[i]}
  {
    assert s[..i + 1][..i] == s[..i];
  }

  lemma {:induction false} ElemsCount(s: seq<Id>)
    requires Distinct(s)
    ensures |Elems(s)| == |s|
  {
    if s != [] {
      ElemsCount(s[..|s| - 1]);
    }
  }

  /** The request is not too old and fits onto the log. */
  predicate Merges(n: Node, req: AppendRequest) {
    && req.term >= n.term
    && (req.prevIndex == 0 || (req.prevIndex <= |n.log| && TermAt(n.log, req.prevIndex) == req.prevTerm))
  }

  ghost predicate IsRequest(req: AppendRequest, n: Node, self: Id, p: Id) {
    p in n.nextIndex && 1 <= n.nextIndex[p] <= |n.log| + 1 && req == RequestFor(n, self, p)
  }

  // ---- The files of a node ----

  function KindCode(k: EntryKind): Byte {
    match k
    case TxnBegin => 1
    case TxnWrite => 2
    case TxnDelete => 3
    case TxnPrepare => 4
    case TxnCommit => 5
    case TxnAbort => 6
    case Noop => 7
    case TxnPrepareBatch => 8
  }

  /** The kind of a stored entry. No other bytes are ever written. */
  function KindOf(b: Byte): EntryKind {
    match b
    case 1 => TxnBegin
    case 2 => TxnWrite
    case 3 => TxnDelete
    case 4 => TxnPrepare
    case 5 => TxnCommit
    case 6 => TxnAbort
    case 8 => TxnPrepareBatch
    case _ => Noop
  }

  predicate Small(e: Entry) {
    e.index < 0x1_0000_0000_0000_0000 && e.term < 0x1_0000_0000_0000_0000 && |e.payload| < 0x1_0000_0000
  }

  ghost predicate Storable(n: Node) {
    && Indexed(n.log) && (forall i :: 0 <= i < |n.log| ==> Small(n.log[i]))
    && n.term < 0x1_0000_0000_0000_0000 && (n.votedFor.Some? ==> n.votedFor.value < 0x1_0000_0000)
  }

  function Stored(e: Entry): F.StoredEntry
    requires Small(e)
  {
    F.StoredEntry(e.index, e.term, KindCode(e.kind), e.payload)
  }

  function Loaded(e: F.StoredEntry): Entry { Entry(e.index, e.term, KindOf(e.kind), e.payload) }

  function LoadedAll(es: seq<F.StoredEntry>): seq<Entry> { seq(|es|, i requires 0 <= i < |es| => Loaded(es[i])) }

  ghost function StoredAll(log: seq<Entry>): seq<F.StoredEntry>
    requires forall i :: 0 <= i < |log| ==> Small(log[i])
  {
    seq(|log|, i requires 0 <= i < |log| => Stored(log[i]))
  }

  ghost function LogFile(n: Node): Bytes
    requires Storable(n)
  {
    Framing.EncodeAll(F.Encoder(), StoredAll(n.log))
  }

  ghost function MetaFile(n: Node): Bytes
    requires Storable(n)
  {
    F.EncodeMeta(F.Meta(n.term, if n.votedFor.Some? then Some(n.votedFor.value) else None))
  }

  /** The log file cut off after m bytes. */
  ghost function CutFile(n: Node, m: nat): Bytes
    requires Storable(n) && m <= |LogFile(n)|
  {
    LogFile(n)[..m]
  }

  /** The entries that are whole in the first m bytes. */
  ghost function WholeEntries(n: Node, m: nat): seq<Entry>
    requires Storable(n) && m <= |LogFile(n)|
  {
    n.log[..Framing.Whole(F.Encoder(), StoredAll(n.log), m)]
  }

  method LoadEntries(file: Bytes) returns (entries: seq<Entry>)
    ensures entries == LoadedAll(Framing.Parse(F.One(), file))
  {
    var stored := F.Load(file);
    entries := LoadedAll(stored);
  }

  lemma LogBack(n: Node, m: nat)
    requires Storable(n) && m <= |LogFile(n)|
    ensures LoadedAll(Framing.Parse(F.One(), CutFile(n, m))) == WholeEntries(n, m)
  {
    var es := StoredAll(n.log);
    F.TornRaftLog(es, m);
    LoadedStored(n.log, Framing.Whole(F.Encoder(), es, m));
  }

  lemma LoadedStored(log: seq<Entry>, k: nat)
    requires (forall i :: 0 <= i < |log| ==> Small(log[i])) && k <= |log|
    ensures LoadedAll(StoredAll(log)[..k]) == log[..k]
  {
    forall e | Small(e) ensures Loaded(Stored(e)) == e {}
  }

  lemma MetaFileBack(n: Node)
    requires Storable(n)
    ensures F.DecodeMeta(MetaFile(n)) == Some(F.Meta(n.term, if n.votedFor.Some? then Some(n.votedFor.value) else None))
  {
    var meta := F.Meta(n.term, if n.votedFor.Some? then Some(n.votedFor.value) else None);
    F.MetaBack(meta, 13);
    assert F.EncodeMeta(meta)[..13] == F.EncodeMeta(meta);
  }

  /** What a node wrote is what it loads. */
  lemma FilesBack(n: Node, m: nat)
    requires Storable(n) && m <= |LogFile(n)|
    ensures LoadedAll(Framing.Parse(F.One(), CutFile(n, m))) == WholeEntries(n, m) && Indexed(WholeEntries(n, m))
    ensures F.DecodeMeta(MetaFile(n)) == Some(F.Meta(n.term, if n.votedFor.Some? then Some(n.votedFor.value) else None))
  {
    LogBack(n, m);
    MetaFileBack(n);
  }

  class Server {
    const self: Id
    const peers: seq<Id>
    const log: Log
    var currentTerm: nat
    var votedFor: Option<Id>
    var role: Role
    var leaderId: Option<Id>
    var commitIndex: nat
    var lastApplied: nat
    var nextIndex: map<Id, nat>
    var matchIndex: map<Id, nat>
    var votes: set<Id>
    var output: seq<Entry>

    ghost predicate Valid() reads this, log {
      log.Valid() && Distinct(peers)
    }

    ghost function View(): Node reads this, log {
      Node(currentTerm, votedFor, log.entries, role, leaderId, commitIndex, lastApplied,
           nextIndex, matchIndex, votes, output)
    }

    ghost function PeerSet(): set<Id> {
      Elems(peers)
    }

    constructor (self: Id, peers: seq<Id>)
      requires Distinct(peers)
      ensures Valid() && View() == Initial() && this.self == self && this.peers == peers && fresh(log)
    {
      this.self, this.peers := self, peers;
      log := new Log();
      currentTerm, votedFor, role, leaderId := 0, None, Follower, None;
      commitIndex, lastApplied, nextIndex, matchIndex := 0, 0, map[], map[];
      votes, output := {}, [];
    }

    /** Come back after a crash with what the metadata and log files say. If they are the files of a node,
        the log cut off anywhere, this is that node restarted with the entries that are whole. */
    constructor Reload(self: Id, peers: seq<Id>, meta: Bytes, file: Bytes)
      requires Distinct(peers)
      ensures this.self == self && this.peers == peers && fresh(log)
      ensures forall n: Node, m: nat {:trigger CutFile(n, m)} ::
                Storable(n) && meta == MetaFile(n) && m <= |LogFile(n)| && file == CutFile(n, m) ==>
                  Valid() && View() == Restart(n.(log := WholeEntries(n, m)))
    {
      this.self, this.peers := self, peers;
      var entries := LoadEntries(file);
      log := new Log.Load(entries);
      var decoded := F.DecodeMeta(meta);
      currentTerm := if decoded.Some? then decoded.value.term else 0;
      votedFor := if decoded.Some? && decoded.value.vote.Some? then Some(decoded.value.vote.value) else None;
      role, leaderId := Follower, None;
      commitIndex, lastApplied, nextIndex, matchIndex := 0, 0, map[], map[];
      votes, output := {}, [];
      new;
      forall n: Node, m: nat | Storable(n) && meta == MetaFile(n) && m <= |LogFile(n)| && file == CutFile(n, m)
        ensures Valid() && View() == Restart(n.(log := WholeEntries(n, m)))
      {
        FilesBack(n, m);
      }
    }

    method ToFollower(term: nat)
      requires Valid()
      modifies this
      ensures Valid() && View() == BecomeFollower(old(View()), term)
    {
      currentTerm := term;
      votedFor := None;
      role := Follower;
      leaderId := None;
    }

    method StartElection() returns (started: bool, req: VoteRequest)
      requires Valid()
      modifies this
      ensures Valid() && started == (old(role) != Leader)
      ensures started ==>
              && role == Candidate && currentTerm == old(currentTerm) + 1 && votedFor == Some(self) && votes == {self}
              && req == VoteRequest(currentTerm, self, |log.entries|, LastOf(log.entries).0)
      ensures View() == if started then BecomeCandidate(old(View()), self) else old(View())
    {
      started := role != Leader;
      if started {
        role := Candidate;
        currentTerm := currentTerm + 1;
        votedFor := Some(self);
        leaderId := None;
        votes := {self};
      }
      var lli := log.LastIndex();
      var llterm := log.TermAtIndex(lli);
      req := VoteRequest(currentTerm, self, lli, llterm);
    }

    method ToLeader()
      requires Valid()
      modifies this, log
      ensures Valid() && View() == BecomeLeader(old(View()), self, PeerSet())
    {
      var last := log.LastIndex();
      LeadFrom(last + 1);
      var index := log.Append(currentTerm, Noop, []);
    }

    method LeadFrom(next: nat)
      modifies this
      ensures View() == old(View()).(role := Leader, leader := Some(self),
                                     nextIndex := old(nextIndex) + ForAll(PeerSet(), next),
                                     matchIndex := old(matchIndex) + ForAll(PeerSet(), 0))
    {
      role := Leader;
      leaderId := Some(self);
      ResetProgress(next);
    }

    method ResetProgress(next: nat)
      modifies this`nextIndex, this`matchIndex
      ensures nextIndex == old(nextIndex) + ForAll(PeerSet(), next)
      ensures matchIndex == old(matchIndex) + ForAll(PeerSet(), 0)
    {
      var i := 0;
      while i < |peers|
        invariant i <= |peers|
        invariant nextIndex == SetAll(old(nextIndex), peers[..i], next)
        invariant matchIndex == SetAll(old(matchIndex), peers[..i], 0)
      {
        assert peers[..i + 1][..i] == peers[..i];
        nextIndex := nextIndex[peers[i] := next];
        matchIndex := matchIndex[peers[i] := 0];
        i := i + 1;
      }
      assert peers[..i] == peers;
      SetAllIsSum(old(nextIndex), peers, next);
      SetAllIsSum(old(matchIndex), peers, 0);
    }

    method HandleRequestVote(req: VoteRequest) returns (resp: VoteReply)
      requires Valid()
      modifies this
      ensures Valid() && (View(), resp) == HandleVote(old(View()), req)
      ensures resp.granted <==>
              && req.term >= old(currentTerm)
              && (req.term > old(currentTerm) || old(votedFor) == None || old(votedFor) == Some(req.candidate))
              && AtLeast((req.lastTerm, req.lastIndex), LastOf(log.entries))
      ensures resp.term == currentTerm == Max(old(currentTerm), req.term)
      ensures resp.granted ==> votedFor == Some(req.candidate)
    {
      if req.term < currentTerm { return VoteReply(currentTerm, false); }
      if req.term > currentTerm { ToFollower(req.term); }
      var lastIndex := log.LastIndex();
      var lastTerm := log.TermAtIndex(lastIndex);
      var upToDate := req.lastTerm > lastTerm || (req.lastTerm == lastTerm && req.lastIndex >= lastIndex);
      var grant := (votedFor == None || votedFor == Some(req.candidate)) && upToDate;
      if grant { votedFor := Some(req.candidate); }
      resp := VoteReply(currentTerm, grant);
    }

    method CountVote(from: Id, sentTerm: nat, resp: VoteReply)
      requires Valid() && self !in peers
      modifies this, log
      ensures Valid() && View() == HandleVoteReply(old(View()), self, PeerSet(), from, sentTerm, resp)
      ensures old(role) == Candidate && old(currentTerm) == sentTerm && resp == VoteReply(sentTerm, true) ==>
                (role == Leader <==> 2 * |old(votes) + {from}| > |peers| + 1)
    {
      if resp.term != 0 && resp.term > currentTerm { ToFollower(resp.term); return; }
      if currentTerm != sentTerm || role != Candidate { return; }
      if resp.term != 0 && resp.term < sentTerm { return; }
      if resp.term == 0 && !resp.granted { return; }
      if resp.granted { votes := votes + {from}; }
      PeersDistinct();
      if |votes| >= (|peers| + 1) / 2 + 1 { ToLeader(); }
    }

    lemma PeersDistinct()
      requires Valid()
      ensures |PeerSet()| == |peers|
    {
      ElemsCount(peers);
    }

    method HandleAppendEntries(req: AppendRequest) returns (resp: AppendReply)
      requires Valid() && (Merges(View(), req) ==> InBounds(log.entries, req.entries))
      modifies this, log
      ensures Valid() && (View(), resp) == HandleAppend(old(View()), req)
      ensures resp.success <==> Welcome(old(View()), req)
      ensures resp.success ==> leaderId == Some(req.leader)
      ensures resp.success ==> commitIndex == Max(old(commitIndex), Min(req.leaderCommit, |log.entries|))
    {
      if req.term < currentTerm { return AppendReply(currentTerm, false, 0); }
      if req.term > currentTerm { ToFollower(req.term); } else { role := Follower; }
      leaderId := Some(req.leader);
      var last := log.LastIndex();
      var prevTerm := log.TermAtIndex(req.prevIndex);
      if req.prevIndex > 0 && (last < req.prevIndex || prevTerm != req.prevTerm) {
        return AppendReply(currentTerm, false, 0);
      }
      if req.entries != [] { log.AppendEntries(req.entries); }
      last := log.LastIndex();
      commitIndex := Max(commitIndex, Min(req.leaderCommit, last));
      resp := AppendReply(currentTerm, true, req.prevIndex + |req.entries|);
    }

    method ProcessAppendReply(from: Id, sentTerm: nat, resp: AppendReply)
      requires Valid()
      modifies this
      ensures Valid() && View() == HandleAppendReply(old(View()), PeerSet(), from, sentTerm, resp)
    {
      if resp.term != 0 && resp.term > currentTerm { ToFollower(resp.term); return; }
      if sentTerm != currentTerm || role != Leader { return; }
      var next := if from in nextIndex then nextIndex[from] else 0;
      if !resp.success {
        nextIndex := nextIndex[from := if next <= 2 then 1 else next - 1];
        return;
      }
      var known := if from in matchIndex then matchIndex[from] else 0;
      matchIndex := matchIndex[from := Max(known, resp.matchIndex)];
      nextIndex := nextIndex[from := Max(next, resp.matchIndex + 1)];
      AdvanceCommitIndex();
    }

    /** The number of peers known to hold the log up to n. */
    method CountReplicated(n: nat) returns (count: nat)
      requires Valid()
      ensures count == |Replicated(View(), PeerSet(), n)|
    {
      count := 0;
      var i := 0;
      while i < |peers|
        invariant i <= |peers|
        invariant count == |Replicated(View(), Elems(peers[..i]), n)|
      {
        ElemsStep(peers, i);
        ReplicatedStep(View(), Elems(peers[..i]), peers[i], n);
        if peers[i] in matchIndex && matchIndex[peers[i]] >= n { count := count + 1; }
        i := i + 1;
      }
      assert peers[..i] == peers;
    }

    method AdvanceCommitIndex()
      requires Valid()
      modifies this
      ensures Valid() && View() == AdvanceCommit(old(View()), PeerSet()) && commitIndex >= old(commitIndex)
      ensures old(role) == Leader && commitIndex > old(commitIndex) ==> HeldByMost(commitIndex)
      ensures old(role) == Leader ==> forall k: nat :: HeldByMost(k) ==> k <= commitIndex
    {
      ghost var n := View();
      ScanForCommit();
      forall k: nat | 1 <= k <= |log.entries| ensures HeldByMost(k) <==> Committable(n, PeerSet(), k) {
        MostIs(k);
        assert Replicated(View(), PeerSet(), k) == Replicated(n, PeerSet(), k);
      }
    }

    /** From the end of the log back to the commit index. */
    method ScanForCommit()
      requires Valid()
      modifies this
      ensures Valid() && View() == AdvanceCommit(old(View()), PeerSet())
    {
      if role != Leader { return; }
      PeersDistinct();
      var last := log.LastIndex();
      if commitIndex >= last { return; }
      var n := last;
      while n > commitIndex
        invariant View() == old(View()) && commitIndex <= n
        invariant CommitTarget(View(), PeerSet(), commitIndex, n) == CommitTarget(View(), PeerSet(), commitIndex, last)
      {
        var t := log.TermAtIndex(n);
        if t == currentTerm {
          var count := CountReplicated(n);
          if count + 1 >= (|peers| + 1) / 2 + 1 {
            commitIndex := n;
            return;
          }
        }
        n := n - 1;
      }
    }

    /** The entry at k is of the current term, and more than half of all nodes have it. */
    ghost predicate HeldByMost(k: nat)
      reads this, log
    {
      && 1 <= k <= |log.entries| && log.entries[k - 1].term == currentTerm
      && 2 * (|set p | p in peers && p in matchIndex && matchIndex[p] >= k| + 1) > |peers| + 1
    }

    lemma MostIs(k: nat)
      requires Valid() && 1 <= k <= |log.entries|
      ensures HeldByMost(k) <==> Committable(View(), PeerSet(), k)
    {
      PeersDistinct();
      assert Replicated(View(), PeerSet(), k) == set p | p in peers && p in matchIndex && matchIndex[p] >= k;
    }

    method BuildRequest(p: Id) returns (req: AppendRequest)
      requires Valid() && p in nextIndex && 1 <= nextIndex[p] <= |log.entries| + 1
      ensures IsRequest(req, View(), self, p)
    {
      var ni := nextIndex[p];
      var prevTerm := log.TermAtIndex(ni - 1);
      var last := log.LastIndex();
      var entries := [];
      if ni <= last { entries := log.GetRange(ni, last); }
      assert entries == log.entries[ni - 1..];
      req := AppendRequest(currentTerm, self, ni - 1, prevTerm, entries, commitIndex);
    }

    /** The calls one round of replication makes, one per peer. */
    method BuildRequests() returns (reqs: map<Id, AppendRequest>)
      requires Valid() && role == Leader
      requires forall p :: p in peers ==> p in nextIndex && 1 <= nextIndex[p] <= |log.entries| + 1
      ensures reqs.Keys == PeerSet() && forall p :: p in reqs ==> IsRequest(reqs[p], View(), self, p)
    {
      reqs := map[];
      ghost var n := View();
      var i := 0;
      while i < |peers|
        invariant i <= |peers| && forall p {:trigger p in reqs} :: p in reqs <==> p in peers[..i]
        invariant forall p :: p in reqs ==> IsRequest(reqs[p], n, self, p)
      {
        assert peers[..i + 1] == peers[..i] + [peers[i]];
        var req := BuildRequest(peers[i]);
        reqs := reqs[peers[i] := req];
        i := i + 1;
      }
      assert peers[..i] == peers;
    }

    method ProposeEntry(kind: EntryKind, payload: Bytes) returns (index: nat)
      requires Valid()
      modifies this, log
      ensures Valid() && View() == Propose(old(View()), kind, payload)
      ensures index == if old(role) == Leader then |log.entries| else 0
    {
      if role != Leader { return 0; }
      index := log.Append(currentTerm, kind, payload);
    }

    method ApplyAll()
      requires Valid() && lastApplied <= |log.entries|
      modifies this
      ensures Valid() && View() == ApplyCommitted(old(View()))
    {
      while lastApplied < commitIndex
        invariant Valid() && old(lastApplied) <= lastApplied <= Max(old(lastApplied), Min(commitIndex, |log.entries|))
        invariant lastApplied <= |log.entries|
        invariant View() == old(View()).(applied := lastApplied,
                  output := old(output) + log.entries[old(lastApplied)..lastApplied])
        decreases commitIndex - lastApplied
      {
        var e := log.Get(lastApplied + 1);
        if e == None { break; }
        output := output + [e.value];
        lastApplied := lastApplied + 1;
      }
    }

    method QuorumLost()
      requires Valid()
      modifies this
      ensures Valid() && View() == StepDown(old(View()))
      ensures old(role) == Leader ==> role == Follower && votedFor == None && currentTerm == old(currentTerm)
    {
      if role == Leader { ToFollower(currentTerm); }
    }
  }
}
