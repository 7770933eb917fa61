/** Any number of reporter threads merging trackers' lists into the one table of storage servers
    (FastDFS/storage/tracker_client_thread.c), beside the sync threads that they start (FastDFS/storage/storage_sync.c).
    Sync threads write the status of their server, and merge lists too: whenever one joins a tracker, to ask for its
    source or to report a status, the tracker answers with its list.

    A list entry takes several steps: the unlocked lookup, the unlocked decision about a known server and the write
    that follows it, the unlocked test for room, the insertion under reporter_thread_lock, and the start of a
    sync thread.  A thread may take up any entry next, so the runs cover every sequence of lists.  What bsearch
    returns is a position in the index, which is read again at each use.  A sync thread reads and writes the status
    of its slot in separate steps. */
module Reporters {
  import opened StorageTable

  const OFFLINE := 4
  const ONLINE := 5
  const ACTIVE := 6

  /** Where a thread is in tracker_merge_servers. */
  datatype Pc =
    | Idle
    | Entry(b: Server)                            // about to look b up
    | Found(b: Server, pos: nat)                  // bsearch found it at that position of the index
    | Writing(b: Server, pos: nat, anew: bool)    // decided to overwrite the status; anew: it was NONE
    | NotFound(b: Server)
    | Inserting(b: Server)                        // saw g_storage_count below the maximum
    | Starting(slot: nat)                         // about to start a sync thread

  datatype SyncPc = Watching | SawWaiting | SawSyncing | SawDeleted | Gone

  /** A sync thread, given the slot it was started for; it merges only while Watching. */
  datatype Sync = Sync(slot: nat, pc: SyncPc)

  /** `slots` is g_storage_servers as far as it has been written; the first `count` are the known servers.
      `threads` are the merging threads: the reporters, and then one for each of `syncs`, in their order.
      `overrun` records that a slot past the end of the arrays has been written. */
  datatype State = State(
    slots: seq<Server>,
    count: nat,
    order: seq<nat>,
    threads: seq<Pc>,
    syncs: seq<Sync>,
    overrun: bool)

  ghost function Live(s: State): seq<Server> {
    if s.count <= |s.slots| then s.slots[..s.count] else s.slots
  }

  function WithStatus(slots: seq<Server>, k: nat, status: int): seq<Server>
    requires k < |slots|
  {
    slots[k := slots[k].(status := status)]
  }

  /** The memcpy into the next free slot. */
  function Filled(slots: seq<Server>, k: nat, b: Server): seq<Server>
    requires k <= |slots|
  {
    if k < |slots| then slots[k := b] else slots + [b]
  }

  // ----------------------------------------------------------------- steps

  /** The locked insertion; a duplicate leaves the live part of the index as it was. */
  ghost predicate Insertion(s: State, s': State, b: Server) {
    && s.count <= |s.slots| && s'.slots == Filled(s.slots, s.count, b)
    && if Known(Live(s), b.ip) then s'.count == s.count && s'.order == s.order
       else
         && s'.count == s.count + 1 && Ascending(s'.slots, s.order)
         && exists p: nat :: Belongs(s'.slots, s.order, s.count, p) && s'.order == Inserted(s.order, p, s.count)
  }

  /** Some other thread is inserting, so a lookup may meet the index while it is being shifted. */
  ghost predicate Shifting(s: State, t: nat) {
    exists u :: 0 <= u < |s.threads| && u != t && s.threads[u].Inserting?
  }

  ghost predicate Act(s: State, s': State, t: nat, pc: Pc, pc': Pc) {
    var same := s.(threads := s'.threads);
    match pc
    case Idle => s' == same && pc'.Entry?
    case Entry(b) =>
      && s' == same
      && if pc'.Found? then pc'.b == b && pc'.pos < |s.order| && s.order[pc'.pos] < |s.slots|
                            && s.slots[s.order[pc'.pos]].ip == b.ip
         else (!Known(Live(s), b.ip) || Shifting(s, t)) && pc' == if b.status == DELETED then Idle else NotFound(b)
    case Found(b, pos) =>
      && s' == same && pos < |s.order| && s.order[pos] < |s.slots|
      && var cur := s.slots[s.order[pos]].status;
         pc' == if Decide(cur, b.status) == Overwrite then Writing(b, pos, cur == NONE) else Idle
    case Writing(b, pos, anew) =>
      && pos < |s.order| && s.order[pos] < |s.slots|
      && s' == same.(slots := WithStatus(s.slots, s.order[pos], b.status))
      && pc' == if anew then Starting(s.order[pos]) else Idle
    case NotFound(b) =>
      s' == same && pc' == if s.count < MAX_SERVERS then Inserting(b) else Idle
    case Inserting(b) =>
      if s.count >= MAX_SERVERS then s'.overrun
      else
        && Insertion(s, s', b) && s'.syncs == s.syncs && s'.overrun == s.overrun && pc' == Starting(s.count)
    case Starting(k) =>
      && pc' == Idle && k < |s.slots|
      && (|| s' == same
          || (s.slots[k].status != DELETED && s.slots[k].status != NONE
              && s' == same.(syncs := s.syncs + [Sync(k, Watching)])))
  }

  /** A reporter merges at any time, a sync thread while it is watching. */
  ghost predicate MayMerge(s: State, t: nat) {
    && |s.syncs| <= |s.threads|
    && var i := t - (|s.threads| - |s.syncs|);
       0 <= i < |s.syncs| ==> s.syncs[i].pc == Watching
  }

  /** A step of a merge; with a new sync thread comes a new merging thread. */
  ghost predicate Step(s: State, s': State, t: nat) {
    && t < |s.threads| <= |s'.threads| && MayMerge(s, t)
    && s'.threads == s.threads[t := s'.threads[t]] + (if |s'.syncs| > |s.syncs| then [Idle] else [])
    && Act(s, s', t, s.threads[t], s'.threads[t])
  }

  /** What a sync thread, when it is not merging, does with the status of its slot. */
  ghost predicate SyncStep(s: State, s': State, i: nat) {
    && i < |s.syncs| <= |s.threads| && s.threads[|s.threads| - |s.syncs| + i] == Idle
    && s.syncs[i].slot < |s.slots|
    && var k := s.syncs[i].slot;
       var cur := s.slots[k].status;
       var moved := (pc: SyncPc) => s.(syncs := s.syncs[i := Sync(k, pc)]);
       match s.syncs[i].pc
       case Watching =>
         || s' == moved(Gone)
         || (cur == WAIT_SYNC && s' == moved(SawWaiting))
         || (cur == SYNCING && s' == moved(SawSyncing))
         || (cur == DELETED && s' == moved(SawDeleted))
       case SawWaiting => s' == moved(Watching).(slots := WithStatus(s.slots, k, SYNCING))
       case SawSyncing => s' == moved(Watching).(slots := WithStatus(s.slots, k, ONLINE))
       case SawDeleted => s' == moved(Gone).(slots := WithStatus(s.slots, k, NONE))
       case Gone => false
  }

  ghost predicate Next(s: State, s': State) {
    (exists t: nat :: Step(s, s', t)) || (exists i: nat :: SyncStep(s, s', i))
  }

  /** n reporters, and a table that is still empty. */
  ghost predicate Init(s: State, n: nat) {
    && s.slots == [] && s.count == 0 && s.order == [] && s.syncs == [] && !s.overrun
    && |s.threads| == n && forall t :: 0 <= t < n ==> s.threads[t] == Idle
  }

  /** A run of n reporters in which at most m sync threads are ever started. */
  ghost predicate IsRun(r: seq<State>, n: nat, m: nat) {
    && r != [] && Init(r[0], n)
    && (forall i :: 0 <= i < |r| - 1 ==> Next(r[i], r[i + 1]))
    && (forall i :: 0 <= i < |r| ==> |r[i].syncs| <= m)
  }

  // ----------------------------------------------------------------- what every run keeps

  ghost predicate PcOk(pc: Pc, slots: nat, count: nat) {
    && (pc.Found? || pc.Writing? ==> pc.pos < count)
    && (pc.Starting? ==> pc.slot < slots)
    && (pc.NotFound? || pc.Inserting? ==> pc.b.status != DELETED)
  }

  ghost predicate Inv(s: State) {
    && s.count <= |s.slots| && TableOk(Live(s), s.order)
    && (forall t :: 0 <= t < |s.threads| ==> PcOk(s.threads[t], |s.slots|, s.count))
    && (forall i :: 0 <= i < |s.syncs| ==> s.syncs[i].slot < |s.slots|)
    && |s.syncs| <= |s.threads|
  }

  /** The reporters. */
  ghost function ReporterCount(s: State): int {
    |s.threads| - |s.syncs|
  }

  /** No server is forgotten, moved or renamed. */
  ghost predicate Remembers(sv: seq<Server>, sv': seq<Server>) {
    |sv| <= |sv'| && forall k :: 0 <= k < |sv| ==> sv'[k].ip == sv[k].ip
  }

  lemma WriteKeepsTable(slots: seq<Server>, count: nat, order: seq<nat>, k: nat, status: int)
    requires count <= |slots| && TableOk(slots[..count], order) && k < |slots|
    ensures TableOk(WithStatus(slots, k, status)[..count], order)
    ensures Remembers(slots[..count], WithStatus(slots, k, status)[..count])
  {
    var slots' := WithStatus(slots, k, status);
    if k < count {
      StatusKeepsTable(slots[..count], order, k, status);
      assert slots'[..count] == WithStatus(slots[..count], k, status);
    } else {
      assert slots'[..count] == slots[..count];
    }
  }

  lemma InsertionKeepsTable(s: State, s': State, b: Server)
    requires s.count <= |s.slots| && TableOk(Live(s), s.order) && Insertion(s, s', b)
    ensures s'.count <= |s'.slots| && TableOk(Live(s'), s'.order) && Remembers(Live(s), Live(s'))
    ensures |s.slots| <= |s'.slots| && s.count < |s'.slots| && s.count <= s'.count
  {
    var sv := Live(s);
    if Known(sv, b.ip) {
      assert Live(s') == sv;
    } else {
      assert Live(s') == sv + [b];
      var p: nat :| Belongs(s'.slots, s.order, s.count, p) && s'.order == Inserted(s.order, p, s.count);
      assert forall i :: 0 <= i < |s.order| ==> s'.slots[s.order[i]] == (sv + [b])[s.order[i]];
      InsertKeepsTable(sv, s.order, b, p);
    }
  }

  lemma ActKeeps(s: State, s': State, t: nat)
    requires Inv(s) && Step(s, s', t) && !s'.overrun
    ensures s'.count <= |s'.slots| && TableOk(Live(s'), s'.order) && Remembers(Live(s), Live(s'))
    ensures |s.slots| <= |s'.slots| && s.count <= s'.count && PcOk(s'.threads[t], |s'.slots|, s'.count)
    ensures forall i :: 0 <= i < |s'.syncs| ==> s'.syncs[i].slot < |s'.slots|
    ensures ReporterCount(s') == ReporterCount(s)
  {
    assert PcOk(s.threads[t], |s.slots|, s.count);
    match s.threads[t]
    case Writing(b, pos, anew) =>
      WriteKeepsTable(s.slots, s.count, s.order, s.order[pos], b.status);
    case Inserting(b) =>
      InsertionKeepsTable(s, s', b);
    case _ =>
  }

  lemma StepKeepsInv(s: State, s': State, t: nat)
    requires Inv(s) && Step(s, s', t) && !s'.overrun
    ensures Inv(s') && Remembers(Live(s), Live(s')) && ReporterCount(s') == ReporterCount(s)
  {
    ActKeeps(s, s', t);
    hide TableOk, Act, Remembers, Live;
    forall u | 0 <= u < |s'.threads| ensures PcOk(s'.threads[u], |s'.slots|, s'.count) {
      if u < |s.threads| && u != t {
        assert s'.threads[u] == s.threads[u] && PcOk(s.threads[u], |s.slots|, s.count);
      }
    }
  }

  lemma SyncKeepsInv(s: State, s': State, i: nat)
    requires Inv(s) && SyncStep(s, s', i)
    ensures Inv(s') && Remembers(Live(s), Live(s')) && s'.overrun == s.overrun
    ensures ReporterCount(s') == ReporterCount(s)
  {
    var k := s.syncs[i].slot;
    match s.syncs[i].pc
    case SawWaiting => WriteKeepsTable(s.slots, s.count, s.order, k, SYNCING);
    case SawSyncing => WriteKeepsTable(s.slots, s.count, s.order, k, ONLINE);
    case SawDeleted => WriteKeepsTable(s.slots, s.count, s.order, k, NONE);
    case _ =>
  }

  lemma NextKeepsInv(s: State, s': State)
    requires Inv(s) && Next(s, s') && !s'.overrun
    ensures Inv(s') && Remembers(Live(s), Live(s')) && ReporterCount(s') == ReporterCount(s)
  {
    if t: nat :| Step(s, s', t) {
      StepKeepsInv(s, s', t);
    } else {
      var i: nat :| SyncStep(s, s', i);
      SyncKeepsInv(s, s', i);
    }
  }

  lemma OverrunStays(s: State, s': State)
    requires Next(s, s') && s.overrun
    ensures s'.overrun
  {
  }

  lemma InvTable(s: State)
    requires Inv(s)
    ensures TableOk(Live(s), s.order) && Remembers(Live(s), Live(s))
  {
  }

  lemma RemembersMore(a: seq<Server>, b: seq<Server>, c: seq<Server>)
    requires Remembers(a, b) && Remembers(b, c)
    ensures Remembers(a, c)
  {
  }

  lemma InitInv(s: State, n: nat)
    requires Init(s, n)
    ensures Inv(s) && ReporterCount(s) == n
  {
  }

  lemma {:induction false} RunInv(r: seq<State>, n: nat, m: nat, i: nat)
    requires IsRun(r, n, m) && i < |r| && !r[i].overrun
    ensures Inv(r[i]) && ReporterCount(r[i]) == n
  {
    hide Inv, Next, Init;
    if i == 0 {
      InitInv(r[0], n);
    } else {
      assert Next(r[i - 1], r[i - 1 + 1]);
      if r[i - 1].overrun { OverrunStays(r[i - 1], r[i]); }
      RunInv(r, n, m, i - 1);
      NextKeepsInv(r[i - 1], r[i]);
    }
  }

  /** In every run of any number of reporters and sync threads, as long as no slot past the arrays has been written, the
      index is a strictly ascending permutation of the known servers, and no server is ever forgotten. */
  lemma {:induction false} RunKeepsTable(r: seq<State>, n: nat, m: nat, i: nat, j: nat)
    requires IsRun(r, n, m) && i <= j < |r| && !r[j].overrun
    ensures !r[i].overrun && TableOk(Live(r[j]), r[j].order) && Remembers(Live(r[i]), Live(r[j]))
  {
    hide Inv, Next, Init, Live, TableOk, Remembers;
    RunInv(r, n, m, j);
    InvTable(r[j]);
    if i < j {
      assert Next(r[j - 1], r[j - 1 + 1]);
      if r[j - 1].overrun { OverrunStays(r[j - 1], r[j]); }
      RunKeepsTable(r, n, m, i, j - 1);
      RunInv(r, n, m, j - 1);
      NextKeepsInv(r[j - 1], r[j]);
      RemembersMore(Live(r[i]), Live(r[j - 1]), Live(r[j]));
    }
  }

  /** A server that the tracker lists as DELETED is never added. */
  lemma NeverAddsDeleted(r: seq<State>, n: nat, m: nat, i: nat)
    requires IsRun(r, n, m) && i + 1 < |r| && !r[i + 1].overrun && r[i + 1].count > r[i].count
    ensures |r[i + 1].slots| > r[i].count && r[i + 1].slots[r[i].count].status != DELETED
  {
    assert Next(r[i], r[i + 1]);
    if r[i].overrun { OverrunStays(r[i], r[i + 1]); }
    RunInv(r, n, m, i);
    var t: nat :| Step(r[i], r[i + 1], t);
    assert PcOk(r[i].threads[t], |r[i].slots|, r[i].count);
    hide TableOk;
  }

  /** A sync thread is started only for a server that is then neither DELETED nor NONE, and it is started for that. */
  lemma StartsForLive(s: State, s': State)
    requires Next(s, s') && !s'.overrun && |s'.syncs| > |s.syncs|
    ensures |s'.syncs| == |s.syncs| + 1 && s'.syncs[..|s.syncs|] == s.syncs && s'.slots == s.slots
    ensures var k := s'.syncs[|s.syncs|].slot; k < |s.slots| && s.slots[k].status !in {DELETED, NONE}
  {
    if t: nat :| Step(s, s', t) {
      assert s.threads[t].Starting?;
    }
  }

  // ----------------------------------------------------------------- building runs

  ghost predicate Reachable(s: State, n: nat, m: nat) {
    exists r :: IsRun(r, n, m) && r[|r| - 1] == s
  }

  lemma Extend(r: seq<State>, n: nat, m: nat, s': State)
    requires IsRun(r, n, m) && Next(r[|r| - 1], s') && |s'.syncs| <= m
    ensures IsRun(r + [s'], n, m)
  {
    var r' := r + [s'];
    forall i | 0 <= i < |r'| - 1 ensures Next(r'[i], r'[i + 1]) {
      assert i < |r| - 1 ==> Next(r[i], r[i + 1]);
    }
  }

  lemma ReachNext(s: State, s': State, n: nat, m: nat)
    requires Reachable(s, n, m) && Next(s, s') && |s'.syncs| <= m
    ensures Reachable(s', n, m)
  {
    var r :| IsRun(r, n, m) && r[|r| - 1] == s;
    Extend(r, n, m, s');
    assert (r + [s'])[|r + [s']| - 1] == s';
  }

  lemma RunTo(s: State, n: nat, m: nat) returns (r: seq<State>)
    requires Reachable(s, n, m)
    ensures IsRun(r, n, m) && r[|r| - 1] == s
  {
    r :| IsRun(r, n, m) && r[|r| - 1] == s;
  }

  /** Thread t moves on to `pc` and changes nothing else. */
  function Moved(s: State, t: nat, pc: Pc): State
    requires t < |s.threads|
  {
    s.(threads := s.threads[t := pc])
  }

  lemma Move(s: State, t: nat, pc: Pc, n: nat, m: nat)
    requires Reachable(s, n, m) && t < |s.threads| && MayMerge(s, t) && |s.syncs| <= m
    requires Act(s, Moved(s, t, pc), t, s.threads[t], pc)
    ensures Reachable(Moved(s, t, pc), n, m)
  {
    assert Step(s, Moved(s, t, pc), t);
    ReachNext(s, Moved(s, t, pc), n, m);
  }

  /** k servers have been added, in ascending order; no sync thread has been started. */
  function Row(n: nat, k: nat): State {
    State(seq(k, i => Server(i, ACTIVE)), k, seq(k, i => i), seq(n, _ => Idle), [], false)
  }

  /** The insertion of a server with the highest address so far. */
  function Appended(s: State, t: nat, b: Server): State
    requires t < |s.threads|
  {
    s.(slots := s.slots + [b], count := s.count + 1, order := s.order + [s.count],
       threads := s.threads[t := Starting(s.count)])
  }

  /** Thread t, which may merge, is where it can take up the next entry. */
  ghost predicate Free(s: State, t: nat) {
    t < |s.threads| && s.threads[t] == Idle && MayMerge(s, t)
  }

  lemma Append(s: State, t: nat, b: Server, n: nat, m: nat)
    requires Reachable(s, n, m) && t < |s.threads| && s.threads[t] == Inserting(b) && MayMerge(s, t) && |s.syncs| <= m
    requires s.count == |s.slots| < MAX_SERVERS && Inv(s) && forall k :: 0 <= k < s.count ==> s.slots[k].ip < b.ip
    ensures Reachable(Appended(s, t, b), n, m)
  {
    var s' := Appended(s, t, b);
    assert Live(s) == s.slots && !Known(Live(s), b.ip);
    assert Ascending(s'.slots, s.order) && Belongs(s'.slots, s.order, s.count, s.count);
    assert s'.order == Inserted(s.order, s.count, s.count);
    assert Step(s, s', t);
    ReachNext(s, s', n, m);
  }

  lemma RowOk(n: nat, k: nat)
    ensures Inv(Row(n, k)) && Live(Row(n, k)) == Row(n, k).slots && !Known(Live(Row(n, k)), k)
  {
    var s := Row(n, k);
    assert Live(s) == s.slots;
    forall i | 0 <= i < k ensures i in s.order { assert s.order[i] == i; }
  }

  /** Thread t, idle until now, gets as far as seeing that there is room for a new server. */
  lemma SeesRoom(s: State, t: nat, b: Server, n: nat, m: nat)
    requires Reachable(s, n, m) && Free(s, t) && |s.syncs| <= m
    requires s.count < MAX_SERVERS && !Known(Live(s), b.ip) && b.status != DELETED
    ensures Reachable(Moved(s, t, Inserting(b)), n, m)
  {
    var s1 := Moved(s, t, Entry(b));
    var s2 := Moved(s1, t, NotFound(b));
    Move(s, t, Entry(b), n, m);
    Move(s1, t, NotFound(b), n, m);
    Move(s2, t, Inserting(b), n, m);
    assert Moved(s2, t, Inserting(b)) == Moved(s, t, Inserting(b));
  }

  /** The sync thread for the new server is not started. */
  lemma StartsNone(s: State, t: nat, n: nat, m: nat)
    requires Reachable(s, n, m) && t < |s.threads| && s.threads[t].Starting? && s.threads[t].slot < |s.slots|
    requires MayMerge(s, t) && |s.syncs| <= m
    ensures Reachable(Moved(s, t, Idle), n, m)
  {
    Move(s, t, Idle, n, m);
  }

  /** The state after thread t has started a sync thread for slot k. */
  function Started(s: State, t: nat, k: nat): State
    requires t < |s.threads|
  {
    s.(threads := s.threads[t := Idle] + [Idle], syncs := s.syncs + [Sync(k, Watching)])
  }

  lemma StartsOne(s: State, t: nat, k: nat, n: nat, m: nat)
    requires Reachable(s, n, m) && t < |s.threads| && s.threads[t] == Starting(k) && k < |s.slots|
    requires MayMerge(s, t) && |s.syncs| < m && s.slots[k].status != DELETED && s.slots[k].status != NONE
    ensures Reachable(Started(s, t, k), n, m)
  {
    assert Step(s, Started(s, t, k), t);
    ReachNext(s, Started(s, t, k), n, m);
  }

  lemma Unknown(s: State, b: Server)
    requires s.count == |s.slots| && forall k :: 0 <= k < s.count ==> s.slots[k].ip < b.ip
    ensures !Known(Live(s), b.ip)
  {
  }

  lemma MovedOk(s: State, t: nat, b: Server)
    requires Inv(s) && t < |s.threads| && b.status != DELETED
    ensures Inv(Moved(s, t, Inserting(b))) && Live(Moved(s, t, Inserting(b))) == Live(s)
  {
    hide TableOk;
  }

  /** Thread t, idle until now, adds a server with the highest address so far. */
  lemma Adds(s: State, t: nat, b: Server, n: nat, m: nat)
    requires Reachable(s, n, m) && Free(s, t) && |s.syncs| <= m
    requires s.count == |s.slots| < MAX_SERVERS && Inv(s) && b.status != DELETED
    requires forall k :: 0 <= k < s.count ==> s.slots[k].ip < b.ip
    ensures Reachable(Appended(s, t, b), n, m)
  {
    var s1 := Moved(s, t, Inserting(b));
    hide Reachable, Inv, Live, Known;
    Unknown(s, b);
    SeesRoom(s, t, b, n, m);
    MovedOk(s, t, b);
    Append(s1, t, b, n, m);
    assert Appended(s1, t, b) == Appended(s, t, b);
  }

  lemma RowNext(n: nat, k: nat)
    requires n > 0
    ensures var b := Server(k, ACTIVE); Moved(Appended(Row(n, k), 0, b), 0, Idle) == Row(n, k + 1)
  {
    var s := Moved(Appended(Row(n, k), 0, Server(k, ACTIVE)), 0, Idle);
    assert s.slots == Row(n, k + 1).slots && s.order == Row(n, k + 1).order && s.threads == Row(n, k + 1).threads;
  }

  lemma AddOne(n: nat, k: nat)
    requires n > 0 && k < MAX_SERVERS && Reachable(Row(n, k), n, 0)
    ensures Reachable(Row(n, k + 1), n, 0)
  {
    RowOk(n, k);
    hide Reachable, Inv, Live, Known;
    Adds(Row(n, k), 0, Server(k, ACTIVE), n, 0);
    StartsNone(Appended(Row(n, k), 0, Server(k, ACTIVE)), 0, n, 0);
    RowNext(n, k);
  }

  lemma {:induction false} RowReachable(n: nat, k: nat)
    requires n > 0 && k <= MAX_SERVERS
    ensures Reachable(Row(n, k), n, 0)
  {
    if k == 0 {
      var r := [Row(n, 0)];
      assert IsRun(r, n, 0) && r[|r| - 1] == Row(n, 0);
    } else {
      RowReachable(n, k - 1);
      AddOne(n, k - 1);
    }
  }

  lemma ReachMore(s: State, n: nat, m: nat)
    requires Reachable(s, n, 0)
    ensures Reachable(s, n, m)
  {
    var r :| IsRun(r, n, 0) && r[|r| - 1] == s;
    assert IsRun(r, n, m);
  }

  /** k servers have been added before one with the given status, for which a sync thread has been started. */
  function Joined(n: nat, k: nat, status: int): State {
    Row(n, k).(slots := Row(n, k).slots + [Server(k, status)], count := k + 1, order := seq(k + 1, i => i),
               threads := seq(n + 1, _ => Idle), syncs := [Sync(k, Watching)])
  }

  lemma JoinedIs(n: nat, k: nat, status: int)
    requires n > 0
    ensures Joined(n, k, status) == Started(Appended(Row(n, k), 0, Server(k, status)), 0, k)
  {
    var s := Started(Appended(Row(n, k), 0, Server(k, status)), 0, k);
    assert s.order == seq(k + 1, i => i) && s.threads == seq(n + 1, _ => Idle);
  }

  lemma JoinedOk(n: nat, k: nat, status: int)
    ensures Inv(Joined(n, k, status)) && Live(Joined(n, k, status)) == Joined(n, k, status).slots
    ensures !Known(Live(Joined(n, k, status)), k + 1) && !Known(Live(Joined(n, k, status)), k + 2)
  {
    var s := Joined(n, k, status);
    assert Live(s) == s.slots;
    forall i | 0 <= i <= k ensures i in s.order { assert s.order[i] == i; }
  }

  lemma JoinedReachable(n: nat, k: nat, status: int, m: nat)
    requires n > 0 && m > 0 && k < MAX_SERVERS && status != DELETED && status != NONE
    ensures Reachable(Joined(n, k, status), n, m)
  {
    var s, b := Row(n, k), Server(k, status);
    RowReachable(n, k);
    RowOk(n, k);
    ReachMore(s, n, m);
    JoinedIs(n, k, status);
    hide Reachable, Inv, Live, Known, Joined;
    Adds(s, 0, b, n, m);
    StartsOne(Appended(s, 0, b), 0, k, n, m);
  }

  // ----------------------------------------------------------------- the room in the table

  /** Nobody but the first reporter ever merges. */
  ghost predicate LoneMerger(r: seq<State>) {
    forall i :: 0 <= i < |r| ==> OthersIdle(r[i])
  }

  ghost predicate OthersIdle(s: State) {
    forall t :: 1 <= t < |s.threads| ==> s.threads[t] == Idle
  }

  /** With one reporter and no sync threads there is nobody else. */
  lemma {:induction false} AloneThreads(r: seq<State>, n: nat, i: nat)
    requires IsRun(r, n, 0) && i < |r|
    ensures |r[i].threads| == n && r[i].syncs == []
  {
    if i > 0 {
      AloneThreads(r, n, i - 1);
      assert Next(r[i - 1], r[i - 1 + 1]) && |r[i].syncs| <= 0;
    }
  }

  lemma AloneIsLone(r: seq<State>, n: nat)
    requires IsRun(r, n, 0) && n <= 1
    ensures LoneMerger(r)
  {
    hide Next, Init;
    forall i | 0 <= i < |r| ensures OthersIdle(r[i]) { AloneThreads(r, n, i); }
  }

  /** A thread about to insert still finds room. */
  ghost predicate RoomLeft(s: State) {
    && !s.overrun
    && forall t :: 0 <= t < |s.threads| && s.threads[t].Inserting? ==> s.count < MAX_SERVERS
  }

  lemma LoneStep(s: State, s': State, t: nat)
    requires OthersIdle(s) && OthersIdle(s') && Step(s, s', t)
    ensures t == 0
  {
  }

  lemma NextKeepsRoom(s: State, s': State)
    requires RoomLeft(s) && Next(s, s') && OthersIdle(s) && OthersIdle(s')
    ensures RoomLeft(s')
  {
    if t: nat :| Step(s, s', t) {
      LoneStep(s, s', t);
    }
  }

  lemma {:induction false} LoneHasRoom(r: seq<State>, n: nat, m: nat, i: nat)
    requires IsRun(r, n, m) && LoneMerger(r) && i < |r|
    ensures RoomLeft(r[i])
  {
    if i > 0 {
      hide Next, RoomLeft, OthersIdle;
      LoneHasRoom(r, n, m, i - 1);
      assert Next(r[i - 1], r[i - 1 + 1]) && OthersIdle(r[i - 1]) && OthersIdle(r[i]);
      NextKeepsRoom(r[i - 1], r[i]);
    }
  }

  lemma Overruns(s: State, t: nat, n: nat, m: nat)
    requires Reachable(s, n, m) && t < |s.threads| && s.threads[t].Inserting? && MayMerge(s, t)
    requires s.count >= MAX_SERVERS && |s.syncs| <= m
    ensures Reachable(Moved(s, t, Idle).(overrun := true), n, m)
  {
    var s' := Moved(s, t, Idle).(overrun := true);
    assert Step(s, s', t);
    ReachNext(s, s', n, m);
  }

  /** Two threads see the last free slot: the second one writes past the arrays. */
  lemma BothSeeRoom(s: State, t: nat, u: nat, n: nat, m: nat) returns (r: seq<State>)
    requires Reachable(s, n, m) && Free(s, t) && Free(s, u) && t != u && |s.syncs| <= m && Inv(s)
    requires s.count == |s.slots| == MAX_SERVERS - 1
    requires forall k :: 0 <= k < s.count ==> s.slots[k].ip < s.count
    ensures IsRun(r, n, m) && r[|r| - 1].overrun
  {
    var b, c := Server(s.count, ACTIVE), Server(s.count + 1, ACTIVE);
    var s1 := Moved(s, u, Inserting(c));
    var s2 := Moved(s1, t, Inserting(b));
    hide Inv, Live, Reachable, Known;
    Unknown(s, b);
    Unknown(s, c);
    SeesRoom(s, u, c, n, m);
    MovedOk(s, u, c);
    SeesRoom(s1, t, b, n, m);
    MovedOk(s1, t, b);
    r := SecondInserts(s2, t, u, b, n, m);
  }

  lemma SecondInserts(s: State, t: nat, u: nat, b: Server, n: nat, m: nat) returns (r: seq<State>)
    requires Reachable(s, n, m) && t < |s.threads| && u < |s.threads| && t != u && MayMerge(s, t) && MayMerge(s, u)
    requires s.threads[t] == Inserting(b) && s.threads[u].Inserting? && |s.syncs| <= m && Inv(s)
    requires s.count == |s.slots| == MAX_SERVERS - 1 && forall k :: 0 <= k < s.count ==> s.slots[k].ip < b.ip
    ensures IsRun(r, n, m) && r[|r| - 1].overrun
  {
    hide Inv, Live, Reachable, IsRun;
    Append(s, t, b, n, m);
    var s' := Appended(s, t, b);
    Overruns(s', u, n, m);
    r := RunTo(Moved(s', u, Idle).(overrun := true), n, m);
  }

  /** Two reporters, or a reporter and the sync thread that it has started, write past the arrays. */
  lemma RaceOverruns(n: nat, m: nat) returns (r: seq<State>)
    requires n >= 2 || (n == 1 && m >= 1)
    ensures IsRun(r, n, m) && r[|r| - 1].overrun
  {
    var k := MAX_SERVERS - 1;
    if n >= 2 {
      RowReachable(n, k);
      ReachMore(Row(n, k), n, m);
      RowOk(n, k);
      hide Reachable, Inv;
      r := BothSeeRoom(Row(n, k), 0, 1, n, m);
    } else {
      JoinedReachable(n, k - 1, ACTIVE, m);
      JoinedOk(n, k - 1, ACTIVE);
      hide Reachable, Inv;
      r := BothSeeRoom(Joined(n, k - 1, ACTIVE), 0, 1, n, m);
    }
  }

  /** Without reporters nothing ever happens. */
  lemma NobodyMoves(r: seq<State>, m: nat)
    requires IsRun(r, 0, m)
    ensures |r| == 1
  {
    assert |r| > 1 ==> Next(r[0], r[0 + 1]);
  }

  /** No run of n reporters with up to m sync threads ever writes past the arrays if and only if there is no reporter,
      or a single one that starts no sync thread. */
  lemma RoomIff(n: nat, m: nat)
    ensures (forall r: seq<State>, i :: IsRun(r, n, m) && 0 <= i < |r| ==> !r[i].overrun)
            <==> n == 0 || (n == 1 && m == 0)
  {
    if n == 0 {
      forall r: seq<State>, i | IsRun(r, n, m) && 0 <= i < |r| ensures !r[i].overrun { NobodyMoves(r, m); }
    } else if n == 1 && m == 0 {
      forall r: seq<State>, i | IsRun(r, n, m) && 0 <= i < |r| ensures !r[i].overrun {
        AloneIsLone(r, n);
        LoneHasRoom(r, n, m, i);
      }
    } else {
      var r := RaceOverruns(n, m);
      assert r[|r| - 1].overrun;
    }
  }

  // ----------------------------------------------------------------- statuses

  /** The step changes statuses only as allowed: DELETED stays, nothing is taken down to WAIT_SYNC or SYNCING. */
  ghost predicate RulesKept(s: State, s': State) {
    forall k :: 0 <= k < |Live(s)| && k < |Live(s')| ==> MayBecome(Live(s)[k].status, Live(s')[k].status)
  }

  ghost predicate RunKeepsRules(r: seq<State>) {
    forall i :: 0 <= i < |r| - 1 && !r[i + 1].overrun ==> RulesKept(r[i], r[i + 1])
  }

  /** A lone reporter without sync threads writes while the status is still what its decision was about. */
  ghost predicate Current(s: State) {
    && |s.threads| <= 1 && s.syncs == []
    && (forall t :: 0 <= t < |s.threads| && s.threads[t].Writing? ==>
          var pc := s.threads[t];
          pc.pos < |s.order| && s.order[pc.pos] < |s.slots|
          && Decide(s.slots[s.order[pc.pos]].status, pc.b.status) == Overwrite)
  }

  lemma StepKeepsCurrent(s: State, s': State, t: nat)
    requires Inv(s) && Current(s) && Step(s, s', t) && !s'.overrun && s'.syncs == []
    ensures Current(s') && RulesKept(s, s')
  {
    assert t == 0 && PcOk(s.threads[0], |s.slots|, s.count);
    if s.threads[0].Writing? {
      OverwriteAllowed(s.slots[s.order[s.threads[0].pos]].status, s.threads[0].b.status);
    }
  }

  lemma AloneStep(s: State, s': State)
    requires Inv(s) && Current(s) && Next(s, s') && !s'.overrun && s'.syncs == []
    ensures Current(s') && RulesKept(s, s')
  {
    var t: nat :| Step(s, s', t);
    StepKeepsCurrent(s, s', t);
  }

  lemma {:induction false} AloneCurrent(r: seq<State>, n: nat, i: nat)
    requires IsRun(r, n, 0) && n <= 1 && i < |r|
    ensures Current(r[i])
  {
    assert |r[i].syncs| <= 0;
    if i > 0 {
      hide Next, Inv, Current, LoneMerger;
      AloneCurrent(r, n, i - 1);
      AloneIsLone(r, n);
      LoneHasRoom(r, n, 0, i);
      LoneHasRoom(r, n, 0, i - 1);
      RunInv(r, n, 0, i - 1);
      assert Next(r[i - 1], r[i - 1 + 1]);
      AloneStep(r[i - 1], r[i]);
    }
  }

  lemma AloneKeepsRules(r: seq<State>, n: nat)
    requires IsRun(r, n, 0) && n <= 1
    ensures RunKeepsRules(r)
  {
    hide Next, Inv, Current, RulesKept, LoneMerger;
    AloneIsLone(r, n);
    forall i | 0 <= i < |r| - 1 && !r[i + 1].overrun ensures RulesKept(r[i], r[i + 1]) {
      AloneCurrent(r, n, i);
      LoneHasRoom(r, n, 0, i);
      RunInv(r, n, 0, i);
      assert Next(r[i], r[i + 1]) && |r[i + 1].syncs| <= 0;
      AloneStep(r[i], r[i + 1]);
    }
  }

  lemma BreaksRules(s: State, s': State, n: nat, m: nat) returns (r: seq<State>)
    requires Reachable(s, n, m) && Next(s, s') && |s'.syncs| <= m && !s'.overrun && !RulesKept(s, s')
    ensures IsRun(r, n, m) && !RunKeepsRules(r) && |r| >= 2 && r[|r| - 2] == s && r[|r| - 1] == s'
  {
    hide Next, RulesKept, Reachable, Init;
    var q := RunTo(s, n, m);
    Extend(q, n, m, s');
    r := q + [s'];
    assert r[|q| - 1] == s && r[|q| - 1 + 1] == s';
    NotAllKept(r, |q| - 1);
  }

  lemma NotAllKept(r: seq<State>, i: nat)
    requires i + 1 < |r| && !r[i + 1].overrun && !RulesKept(r[i], r[i + 1])
    ensures !RunKeepsRules(r)
  {
    hide RulesKept;
  }

  /** Thread t looks the one known server up and decides to overwrite its status. */
  lemma Decides(s: State, t: nat, b: Server, n: nat, m: nat)
    requires Reachable(s, n, m) && Free(s, t) && |s.syncs| <= m
    requires |s.slots| == 1 && s.order == [0] && s.slots[0].ip == b.ip
    requires Decide(s.slots[0].status, b.status) == Overwrite && s.slots[0].status != NONE
    ensures Reachable(Moved(s, t, Writing(b, 0, false)), n, m)
  {
    var s1 := Moved(s, t, Entry(b));
    var s2 := Moved(s1, t, Found(b, 0));
    Move(s, t, Entry(b), n, m);
    Move(s1, t, Found(b, 0), n, m);
    Move(s2, t, Writing(b, 0, false), n, m);
    assert Moved(s2, t, Writing(b, 0, false)) == Moved(s, t, Writing(b, 0, false));
  }

  /** The state after thread t has written. */
  function Wrote(s: State, t: nat, b: Server): State
    requires t < |s.threads| && |s.slots| > 0
  {
    Moved(s, t, Idle).(slots := WithStatus(s.slots, 0, b.status))
  }

  lemma Writes(s: State, t: nat, b: Server)
    requires t < |s.threads| && s.threads[t] == Writing(b, 0, false) && MayMerge(s, t)
    requires |s.slots| > 0 && s.order == [0]
    ensures Step(s, Wrote(s, t, b), t)
  {
  }

  /** Two threads decide on the one known server before either writes: u deletes it, t brings it back. */
  lemma BothDecide(s: State, t: nat, u: nat, n: nat, m: nat) returns (r: seq<State>)
    requires Reachable(s, n, m) && Free(s, t) && Free(s, u) && t != u && |s.syncs| <= m
    requires OneActive(s)
    ensures IsRun(r, n, m) && !RunKeepsRules(r) && |r| >= 2 && !r[|r| - 1].overrun
    ensures Step(r[|r| - 2], r[|r| - 1], t)
    ensures Live(r[|r| - 2]) == [Server(0, DELETED)] && Live(r[|r| - 1]) == [Server(0, OFFLINE)]
  {
    var d, o := Server(0, DELETED), Server(0, OFFLINE);
    hide Reachable;
    Decides(s, u, d, n, m);
    var s1 := Moved(s, u, Writing(d, 0, false));
    Decides(s1, t, o, n, m);
    var s2 := Moved(s1, t, Writing(o, 0, false));
    Writes(s2, u, d);
    var s3 := Wrote(s2, u, d);
    ReachNext(s2, s3, n, m);
    Writes(s3, t, o);
    var s4 := Wrote(s3, t, o);
    hide Step;
    assert Live(s3) == [d] && Live(s4) == [o];
    assert !MayBecome(Live(s3)[0].status, Live(s4)[0].status);
    r := BreaksRules(s3, s4, n, m);
  }

  /** One known server. */
  ghost predicate OneActive(s: State) {
    s.slots == [Server(0, ACTIVE)] && s.count == 1 && s.order == [0] && !s.overrun
  }

  lemma RowOfOne(n: nat)
    requires n >= 2
    ensures OneActive(Row(n, 1)) && Free(Row(n, 1), 0) && Free(Row(n, 1), 1) && Row(n, 1).syncs == []
  {
  }

  lemma JoinedOfOne(n: nat)
    requires n >= 1
    ensures var s := Joined(n, 0, ACTIVE); OneActive(s) && Free(s, 0) && Free(s, 1) && |s.syncs| == 1
  {
    assert Joined(n, 0, ACTIVE).slots == [Server(0, ACTIVE)];
  }

  /** So it is with two reporters, and with a reporter and a sync thread: reporter 0 overwrites DELETED. */
  lemma RaceRevives(n: nat, m: nat) returns (r: seq<State>)
    requires n >= 2 || (n == 1 && m >= 1)
    ensures IsRun(r, n, m) && !RunKeepsRules(r) && |r| >= 2 && !r[|r| - 1].overrun
    ensures Step(r[|r| - 2], r[|r| - 1], 0)
    ensures Live(r[|r| - 2]) == [Server(0, DELETED)] && Live(r[|r| - 1]) == [Server(0, OFFLINE)]
  {
    hide Reachable, IsRun, Step, RunKeepsRules, Live, Row, Joined;
    if n >= 2 {
      RowReachable(n, 1);
      ReachMore(Row(n, 1), n, m);
      RowOfOne(n);
      r := BothDecide(Row(n, 1), 0, 1, n, m);
    } else {
      JoinedReachable(n, 0, ACTIVE, m);
      JoinedOfOne(n);
      r := BothDecide(Joined(n, 0, ACTIVE), 0, 1, n, m);
    }
  }

  /** The sync thread of the one known server moves on to `pc` and leaves the status as `status`. */
  function SyncMoved(s: State, pc: SyncPc, status: int): State
    requires |s.slots| > 0 && |s.syncs| > 0
  {
    s.(syncs := s.syncs[0 := Sync(0, pc)], slots := WithStatus(s.slots, 0, status))
  }

  /** One server that waits to be synchronised, with its sync thread. */
  function Waiting(n: nat): State {
    State([Server(0, WAIT_SYNC)], 1, [0], seq(n + 1, _ => Idle), [Sync(0, Watching)], false)
  }

  lemma WaitingReachable(n: nat, m: nat)
    requires n > 0 && m > 0
    ensures Reachable(Waiting(n), n, m)
  {
    JoinedReachable(n, 0, WAIT_SYNC, m);
    assert Joined(n, 0, WAIT_SYNC).slots == Waiting(n).slots && Joined(n, 0, WAIT_SYNC).order == Waiting(n).order;
    assert Joined(n, 0, WAIT_SYNC) == Waiting(n);
  }

  /** A sync thread that does not merge is enough: it has seen WAIT_SYNC, the reporter deletes the server, and the
      thread brings it back as SYNCING. */
  lemma SyncRevives(n: nat, m: nat) returns (r: seq<State>)
    requires n >= 1 && m >= 1
    ensures IsRun(r, n, m) && !RunKeepsRules(r)
  {
    var s, d := Waiting(n), Server(0, DELETED);
    WaitingReachable(n, m);
    hide Reachable;
    var s1 := SyncMoved(s, SawWaiting, WAIT_SYNC);
    assert SyncStep(s, s1, 0);
    ReachNext(s, s1, n, m);
    Decides(s1, 0, d, n, m);
    var s2 := Moved(s1, 0, Writing(d, 0, false));
    Writes(s2, 0, d);
    var s3 := Wrote(s2, 0, d);
    ReachNext(s2, s3, n, m);
    var s4 := SyncMoved(s3, Watching, SYNCING);
    assert SyncStep(s3, s4, 0);
    assert !MayBecome(Live(s3)[0].status, Live(s4)[0].status);
    r := BreaksRules(s3, s4, n, m);
  }

  /** One reporter and one sync thread: while the reporter is about to write SYNCING the thread has got as far as
      ONLINE, and the reporter takes the status down again. */
  lemma ReporterLowers(n: nat, m: nat) returns (s: State, s': State)
    requires n >= 1 && m >= 1
    ensures Reachable(s, n, m) && Step(s, s', 0) && !s'.overrun && !RulesKept(s, s')
    ensures Live(s) == [Server(0, ONLINE)] && Live(s') == [Server(0, SYNCING)]
  {
    var s0, b := Waiting(n), Server(0, SYNCING);
    WaitingReachable(n, m);
    Decides(s0, 0, b, n, m);
    var s1 := Moved(s0, 0, Writing(b, 0, false));
    s := SyncFinishes(s1, n, m);
    Writes(s, 0, b);
    s' := Wrote(s, 0, b);
    hide Reachable, Step;
    assert !MayBecome(Live(s)[0].status, Live(s')[0].status);
  }

  /** The sync thread takes the server from WAIT_SYNC to ONLINE. */
  lemma SyncFinishes(s: State, n: nat, m: nat) returns (s': State)
    requires Reachable(s, n, m) && s.slots == [Server(0, WAIT_SYNC)] && s.syncs == [Sync(0, Watching)] && m >= 1
    requires |s.threads| > 0 && s.threads[|s.threads| - 1] == Idle
    ensures s' == SyncMoved(s, Watching, ONLINE) && Reachable(s', n, m)
  {
    hide Reachable;
    var s2 := SyncMoved(s, SawWaiting, WAIT_SYNC);
    assert SyncStep(s, s2, 0);
    ReachNext(s, s2, n, m);
    var s3 := SyncMoved(s, Watching, SYNCING);
    assert SyncStep(s2, s3, 0);
    ReachNext(s2, s3, n, m);
    var s4 := SyncMoved(s, SawSyncing, SYNCING);
    assert SyncStep(s3, s4, 0);
    ReachNext(s3, s4, n, m);
    s' := SyncMoved(s, Watching, ONLINE);
    assert SyncStep(s4, s', 0);
    ReachNext(s4, s', n, m);
  }

  /** A sync thread that finds its server DELETED ends, and leaves it as NONE. */
  lemma SyncGivesUp(n: nat, m: nat) returns (s: State, s': State)
    requires n >= 1 && m >= 1
    ensures Reachable(s, n, m) && Reachable(s', n, m) && s.slots == [Server(0, DELETED)]
    ensures s' == s.(slots := [Server(0, NONE)], syncs := [Sync(0, Gone)]) && s.syncs == [Sync(0, SawDeleted)]
    ensures s.threads == seq(n + 1, _ => Idle) && s.order == [0] && s.count == 1 && !s.overrun
  {
    WasDeleted(n, m);
    var s0 := Waiting(n).(slots := [Server(0, DELETED)]);
    hide Reachable;
    s := SyncMoved(s0, SawDeleted, DELETED);
    assert SyncStep(s0, s, 0);
    ReachNext(s0, s, n, m);
    s' := SyncMoved(s, Gone, NONE);
    assert SyncStep(s, s', 0);
    ReachNext(s, s', n, m);
  }

  lemma WasDeleted(n: nat, m: nat)
    requires n >= 1 && m >= 1
    ensures Reachable(Waiting(n).(slots := [Server(0, DELETED)]), n, m)
  {
    var s0, d := Waiting(n), Server(0, DELETED);
    WaitingReachable(n, m);
    hide Reachable;
    Decides(s0, 0, d, n, m);
    var s1 := Moved(s0, 0, Writing(d, 0, false));
    Writes(s1, 0, d);
    ReachNext(s1, Wrote(s1, 0, d), n, m);
    assert Wrote(s1, 0, d).threads == s0.threads && Wrote(s1, 0, d).slots == [d];
  }

  /** A server that has been given up and is listed again gets its status back, and a new sync thread. */
  lemma ComesBack(n: nat, m: nat) returns (s: State)
    requires n >= 1 && m >= 2
    ensures Reachable(s, n, m) && s.slots == [Server(0, ACTIVE)] && s.syncs == [Sync(0, Gone), Sync(0, Watching)]
  {
    var before, given := SyncGivesUp(n, m);
    var b := Server(0, ACTIVE);
    hide Reachable;
    var s1 := Moved(given, 0, Entry(b));
    var s2 := Moved(s1, 0, Found(b, 0));
    var s3 := Moved(s2, 0, Writing(b, 0, true));
    Move(given, 0, Entry(b), n, m);
    Move(s1, 0, Found(b, 0), n, m);
    Move(s2, 0, Writing(b, 0, true), n, m);
    var s4 := Moved(s3, 0, Starting(0)).(slots := WithStatus(s3.slots, 0, ACTIVE));
    assert Step(s3, s4, 0);
    ReachNext(s3, s4, n, m);
    StartsOne(s4, 0, 0, n, m);
    s := Started(s4, 0, 0);
  }

  /** Statuses obey the rules in every run of n reporters with up to m sync threads exactly when there is no reporter,
      or a single one that starts no sync thread. */
  lemma RulesIff(n: nat, m: nat)
    ensures (forall r: seq<State> :: IsRun(r, n, m) ==> RunKeepsRules(r)) <==> n == 0 || (n == 1 && m == 0)
  {
    if n == 0 {
      forall r: seq<State> | IsRun(r, n, m) ensures RunKeepsRules(r) { NobodyMoves(r, m); }
    } else if n == 1 && m == 0 {
      forall r: seq<State> | IsRun(r, n, m) ensures RunKeepsRules(r) { AloneKeepsRules(r, n); }
    } else {
      var r := RaceRevives(n, m);
    }
  }

  // ----------------------------------------------------------------- what the merges alone guarantee

  /** No merge overwrites DELETED. */
  ghost predicate MergesKeepDeleted(r: seq<State>) {
    forall i :: 0 <= i < |r| - 1 && !r[i + 1].overrun && Merges(r[i], r[i + 1]) ==> KeepsDeleted(r[i], r[i + 1])
  }

  ghost predicate Merges(s: State, s': State) {
    exists t: nat :: Step(s, s', t)
  }

  ghost predicate KeepsDeleted(s: State, s': State) {
    forall k :: 0 <= k < |Live(s)| && k < |Live(s')| && Live(s)[k].status == DELETED ==> Live(s')[k].status == DELETED
  }

  lemma RulesKeepDeleted(s: State, s': State)
    requires RulesKept(s, s')
    ensures KeepsDeleted(s, s')
  {
    hide Live;
    forall k | 0 <= k < |Live(s)| && k < |Live(s')| && Live(s)[k].status == DELETED
      ensures Live(s')[k].status == DELETED
    {
      assert MayBecome(Live(s)[k].status, Live(s')[k].status);
    }
  }

  /** The merges overwrite DELETED in no run under the same condition. */
  lemma DeletedIff(n: nat, m: nat)
    ensures (forall r: seq<State> :: IsRun(r, n, m) ==> MergesKeepDeleted(r)) <==> n == 0 || (n == 1 && m == 0)
  {
    hide Step, RulesKept, KeepsDeleted, IsRun;
    if n == 0 || (n == 1 && m == 0) {
      RulesIff(n, m);
      forall r: seq<State> | IsRun(r, n, m) ensures MergesKeepDeleted(r) {
        assert RunKeepsRules(r);
        forall i | 0 <= i < |r| - 1 && !r[i + 1].overrun && Merges(r[i], r[i + 1])
          ensures KeepsDeleted(r[i], r[i + 1])
        {
          RulesKeepDeleted(r[i], r[i + 1]);
        }
      }
    } else {
      var r := RaceRevives(n, m);
      NotKept(r[|r| - 2], r[|r| - 1]);
      var i := |r| - 2;
      assert Merges(r[i], r[i + 1]) && !KeepsDeleted(r[i], r[i + 1]);
    }
  }

  lemma NotKept(s: State, s': State)
    requires Live(s) == [Server(0, DELETED)] && Live(s') == [Server(0, OFFLINE)]
    ensures !KeepsDeleted(s, s')
  {
    assert Live(s)[0].status == DELETED && Live(s')[0].status != DELETED;
  }

  /** What the status can be when the only merging thread writes: what it decided about, or what a sync thread wrote
      since. */
  ghost predicate SinceDecision(cur: int, said: int) {
    Decide(cur, said) == Overwrite || cur == SYNCING || cur == ONLINE || cur == NONE
  }

  ghost predicate Decided(s: State) {
    forall t :: 0 <= t < |s.threads| && s.threads[t].Writing? ==>
      var pc := s.threads[t];
      pc.pos < |s.order| && s.order[pc.pos] < |s.slots|
      && SinceDecision(s.slots[s.order[pc.pos]].status, pc.b.status)
  }

  lemma StepKeepsDecided(s: State, s': State, t: nat)
    requires Inv(s) && Decided(s) && Step(s, s', t) && !s'.overrun && OthersIdle(s) && OthersIdle(s')
    ensures Decided(s')
  {
    hide TableOk;
    LoneStep(s, s', t);
  }

  lemma SyncKeepsDecided(s: State, s': State, i: nat)
    requires Decided(s) && SyncStep(s, s', i)
    ensures Decided(s')
  {
    var k := s.syncs[i].slot;
    assert s'.threads == s.threads && s'.order == s.order && |s'.slots| == |s.slots|;
    assert forall j :: 0 <= j < |s.slots| ==> s'.slots[j].status in {s.slots[j].status, SYNCING, ONLINE, NONE};
  }

  lemma NextKeepsDecided(s: State, s': State)
    requires Inv(s) && Decided(s) && Next(s, s') && !s'.overrun && OthersIdle(s) && OthersIdle(s')
    ensures Decided(s')
  {
    hide Step, SyncStep, Decided, Inv, OthersIdle;
    if t: nat :| Step(s, s', t) {
      StepKeepsDecided(s, s', t);
    } else {
      var i: nat :| SyncStep(s, s', i);
      SyncKeepsDecided(s, s', i);
    }
  }

  lemma LoneAt(r: seq<State>, n: nat, m: nat, i: nat)
    requires IsRun(r, n, m) && LoneMerger(r) && i < |r|
    ensures OthersIdle(r[i]) && !r[i].overrun
  {
    hide IsRun, OthersIdle;
    LoneHasRoom(r, n, m, i);
  }

  lemma InitDecided(s: State, n: nat)
    requires Init(s, n)
    ensures Decided(s)
  {
  }

  lemma {:induction false} LoneDecided(r: seq<State>, n: nat, m: nat, i: nat)
    requires IsRun(r, n, m) && LoneMerger(r) && i < |r|
    ensures Decided(r[i])
  {
    hide Next, Inv, Decided, OthersIdle, LoneMerger, Init;
    if i == 0 {
      InitDecided(r[0], n);
    } else {
      LoneDecided(r, n, m, i - 1);
      LoneAt(r, n, m, i);
      LoneAt(r, n, m, i - 1);
      RunInv(r, n, m, i - 1);
      assert Next(r[i - 1], r[i - 1 + 1]);
      NextKeepsDecided(r[i - 1], r[i]);
    }
  }

  /** A thread that alone merges never overwrites DELETED, whatever sync threads do to the statuses of their servers;
      and it breaks a rule only by taking a server that a sync thread has meanwhile moved on, or given up, down to
      WAIT_SYNC or SYNCING. */
  lemma LoneWrites(r: seq<State>, n: nat, m: nat, i: nat, t: nat, k: nat)
    requires IsRun(r, n, m) && LoneMerger(r) && i + 1 < |r| && Step(r[i], r[i + 1], t) && k < r[i].count
    ensures k < |r[i].slots| && k < |r[i + 1].slots|
    ensures var cur, now := r[i].slots[k].status, r[i + 1].slots[k].status;
            && (cur == DELETED ==> now == DELETED)
            && (|| MayBecome(cur, now)
                || ((cur == SYNCING || cur == ONLINE || cur == NONE) && (now == WAIT_SYNC || now == SYNCING)))
  {
    LoneDecided(r, n, m, i);
    LoneHasRoom(r, n, m, i);
    LoneHasRoom(r, n, m, i + 1);
    RunInv(r, n, m, i);
    LoneStep(r[i], r[i + 1], t);
    if r[i].threads[0].Writing? {
      var pc := r[i].threads[0];
      OverwriteAllowed(r[i].slots[r[i].order[pc.pos]].status, pc.b.status);
    }
  }
}
