/** How the reporter threads of FastDFS/storage/tracker_client_thread.c settle, once and for all, which server the old
    data comes from: tracker_report_thread_entrance, tracker_sync_dest_req and tracker_sync_notify.  Sync threads
    (FastDFS/storage/storage_sync.c), which a merge may start before anything has been settled, wipe the address out
    when they find that it is the one of their deleted server.

    Every access to a shared variable is a step of its own.  Sockets and files answer as they like.  `answers`,
    `notices`, `copies`, `wiped` and `late` record what was received, copied and sent, and whether the address had been
    wiped out by then; the code has no such variables. */
module SyncOld {

  /** A source address and the timestamp until which it is responsible. */
  datatype Pair = Pair(ip: int, until: int)

  datatype Pc =
    | Starting
    | Connecting               // the head of the outer loop, up to a successful join
    | Locking
    | Holding                  // about to test g_sync_old_done
    | Requesting               // in tracker_sync_dest_req
    | Answered(answer: Pair)   // about to copy the address
    | HalfWritten(answer: Pair)// about to set the timestamp
    | Responding
    | Succeeded                // about to set g_sync_old_done
    | Saving                   // about to write the ini file
    | Releasing                // about to unlock and try again
    | Unlocking
    | Unlocked                 // about to set sync_old_done
    | Quitting                 // about to unlock and leave
    | Notifying                // in tracker_sync_notify
    | Addressed(ip: int, late: bool)   // has taken the address; late: after it was wiped out
    | Reporting
    | Exited

  datatype Thread = Thread(pc: Pc, done: bool)   // sync_old_done

  /** A sync thread that has found its deleted server's address in g_sync_src_ip_addr, when `since` answers had been
      copied there, and is about to empty it. */
  datatype Wiper = Wiper(ip: int, since: nat)

  datatype State = State(
    done: bool,              // g_sync_old_done
    source: Pair,            // g_sync_src_ip_addr, g_sync_until_timestamp
    running: bool,           // g_continue_flag
    holder: int,             // who holds reporter_thread_lock, or FREE
    threads: seq<Thread>,
    answers: seq<Pair>,
    notices: seq<Pair>,
    wipers: multiset<Wiper>,
    copies: nat,             // the answers copied
    wiped: bool,             // a sync thread has emptied g_sync_src_ip_addr since the last of them
    late: nat)               // the notices whose address was taken after that

  const FREE := -1
  const EMPTY := 0           // the address of length 0

  // ----------------------------------------------------------------- steps

  /** The shared state that thread t may leave behind, and its own next state. */
  ghost predicate Act(s: State, s': State, t: nat, me: Thread, me': Thread)
  {
    var same := s.(threads := s'.threads);
    match me.pc
    case Starting => s' == same && me' == Thread(Connecting, s.done)
    case Connecting =>
      && me'.done == me.done
      && (|| (s' == same && me'.pc == Connecting)
          || (s' == same && me'.pc == Exited && !s.running)
          || (s' == same.(running := false) && me'.pc == Exited)      // socket failed
          || (s' == same && me'.pc == if me.done then Notifying else Locking))
    case Locking => s.holder == FREE && s' == same.(holder := t) && me' == me.(pc := Holding)
    case Holding => s' == same && me' == me.(pc := if s.done then Unlocking else Requesting)
    case Requesting =>
      && me'.done == me.done
      && (|| (s' == same && me'.pc == Releasing)      // no answer, or one of the wrong size
          || (s' == same && me'.pc == Succeeded)      // an empty answer
          || (me'.pc.Answered? && s' == same.(answers := s.answers + [me'.pc.answer])))
    case Answered(a) =>
      && s' == same.(source := s.source.(ip := a.ip), copies := s.copies + 1, wiped := false)
      && me' == me.(pc := HalfWritten(a))
    case HalfWritten(a) => s' == same.(source := s.source.(until := a.until)) && me' == me.(pc := Responding)
    case Responding => s' == same && me'.done == me.done && (me'.pc == Releasing || me'.pc == Succeeded)
    case Succeeded => s' == same.(done := true) && me' == me.(pc := Saving)
    case Saving =>
      || (s' == same && me' == me.(pc := Unlocking))
      || (s' == same.(running := false) && me' == me.(pc := Quitting))
    case Releasing => s' == same.(holder := FREE) && me' == me.(pc := Connecting)
    case Unlocking => s' == same.(holder := FREE) && me' == me.(pc := Unlocked)
    case Unlocked => s' == same && me' == Thread(Notifying, true)
    case Quitting => s' == same.(holder := FREE) && me' == me.(pc := Exited)
    case Notifying => s' == same && me' == me.(pc := Addressed(s.source.ip, s.wiped))
    case Addressed(ip, late) =>
      && me'.done == me.done && (me'.pc == Connecting || me'.pc == Reporting)
      && s' == same.(notices := s.notices + [Pair(ip, s.source.until)], late := if late then s.late + 1 else s.late)
    case Reporting => s' == same && me'.done == me.done && (me'.pc == Reporting || me'.pc == Connecting)
    case Exited => false
  }

  ghost predicate Step(s: State, s': State, t: nat) {
    && t < |s.threads| == |s'.threads|
    && s'.threads == s.threads[t := s'.threads[t]]
    && Act(s, s', t, s.threads[t], s'.threads[t])
  }

  /** The strcmp of a sync thread whose server, with the address `deleted`, is DELETED. */
  ghost predicate Matches(s: State, s': State, deleted: int) {
    && deleted != EMPTY && s.source.ip == deleted
    && s' == s.(wipers := s.wipers + multiset{Wiper(deleted, s.copies)})
  }

  /** The write that follows it. */
  ghost predicate Wipes(s: State, s': State, w: Wiper) {
    && w in s.wipers
    && s' == s.(wipers := s.wipers - multiset{w}, source := s.source.(ip := EMPTY), wiped := true)
  }

  ghost predicate Next(s: State, s': State) {
    || (exists t: nat :: Step(s, s', t))
    || (exists deleted :: Matches(s, s', deleted))
    || (exists w :: Wipes(s, s', w))
  }

  /** The settings may already be known from an earlier run of the program. */
  ghost predicate Init(s: State) {
    && s.holder == FREE && s.answers == [] && s.notices == [] && s.wipers == multiset{}
    && s.copies == 0 && !s.wiped && s.late == 0
    && forall t :: 0 <= t < |s.threads| ==> s.threads[t].pc == Starting && !s.threads[t].done
  }

  ghost predicate IsRun(r: seq<State>) {
    r != [] && Init(r[0]) && forall i :: 0 <= i < |r| - 1 ==> Next(r[i], r[i + 1])
  }

  // ----------------------------------------------------------------- the invariant

  ghost predicate Critical(pc: Pc) {
    pc.Holding? || pc.Requesting? || pc.Answered? || pc.HalfWritten? || pc.Responding? || pc.Succeeded?
    || pc.Saving? || pc.Releasing? || pc.Unlocking? || pc.Quitting?
  }

  /** Still asking: nobody can have finished. */
  ghost predicate Asking(pc: Pc) {
    pc.Requesting? || pc.Answered? || pc.HalfWritten? || pc.Responding? || pc.Succeeded?
  }

  ghost predicate Settled(pc: Pc) {
    pc.Saving? || pc.Unlocking? || pc.Unlocked? || pc.Quitting? || pc.Notifying? || pc.Addressed? || pc.Reporting?
  }

  ghost predicate ThreadOk(me: Thread, t: int, done: bool, holder: int) {
    && (Critical(me.pc) <==> holder == t)
    && (me.done || Settled(me.pc) ==> done)
    && (Asking(me.pc) ==> !done)
  }

  /** What a reporter that has taken the address holds. */
  ghost predicate CopyOk(me: Thread, last: Pair, wiped: bool) {
    me.pc.Addressed? ==>
      && (me.pc.late ==> wiped) && me.pc.ip == if me.pc.late then EMPTY else last.ip
  }

  ghost function Last(answers: seq<Pair>, first: Pair): Pair {
    if answers == [] then first else answers[|answers| - 1]
  }

  /** The pair once its address has been wiped out. */
  function Emptied(p: Pair): Pair {
    Pair(EMPTY, p.until)
  }

  /** The shared pair is the last answer, with its address wiped out or not, except while the holder of the lock is
      copying it. */
  ghost predicate SourceOk(s: State, first: Pair) {
    var last := Last(s.answers, first);
    if 0 <= s.holder < |s.threads| && s.threads[s.holder].pc.Answered? then s.threads[s.holder].pc.answer == last
    else if 0 <= s.holder < |s.threads| && s.threads[s.holder].pc.HalfWritten? then
      s.threads[s.holder].pc.answer == last && s.source.ip == if s.wiped then EMPTY else last.ip
    else s.source == if s.wiped then Emptied(last) else last
  }

  ghost predicate Copying(s: State) {
    0 <= s.holder < |s.threads| && s.threads[s.holder].pc.Answered?
  }

  /** The shared address is that of the answer copied last, wiped out or not. */
  ghost predicate AddressOk(s: State, first: Pair) {
    && |s.answers| == s.copies + (if Copying(s) then 1 else 0)
    && s.source.ip == if s.wiped then EMPTY else Last(s.answers[..s.copies], first).ip
  }

  /** As long as no further answer has been copied, a sync thread empties what it compared, or what is empty already. */
  ghost predicate WipersOk(s: State) {
    forall w :: w in s.wipers ==> w.since <= s.copies && (w.since == s.copies ==> s.source.ip in {w.ip, EMPTY})
  }

  ghost predicate NoticesOk(s: State, last: Pair) {
    && s.late <= |s.notices| && (s.notices != [] ==> s.done) && (s.late > 0 ==> s.wiped)
    && (s.late > 0 ==> Emptied(last) in s.notices) && (s.late < |s.notices| ==> last in s.notices)
    && (forall p :: p in s.notices ==> (p == last && s.late < |s.notices|) || (p == Emptied(last) && s.late > 0))
  }

  ghost predicate Inv(s: State, first: Pair) {
    && (s.holder == FREE || 0 <= s.holder < |s.threads|)
    && (forall t :: 0 <= t < |s.threads| ==> ThreadOk(s.threads[t], t, s.done, s.holder))
    && (forall t :: 0 <= t < |s.threads| ==> CopyOk(s.threads[t], Last(s.answers, first), s.wiped))
    && SourceOk(s, first) && AddressOk(s, first) && WipersOk(s) && NoticesOk(s, Last(s.answers, first))
  }

  /** What no step undoes: once settled, the timestamp stays, and the address stays or is emptied. */
  ghost predicate Stays(s: State, s': State) {
    && (s.done ==> s'.done && s'.answers == s.answers && s'.copies == s.copies && s'.source.until == s.source.until)
    && (s.done ==> s'.source.ip == s.source.ip || (s'.source.ip == EMPTY && !s.wiped && s'.wiped))
    && (s.done && s.wiped ==> s'.wiped) && s.notices <= s'.notices && (s'.notices != s.notices ==> s.done)
  }

  lemma ActKeeps(s: State, s': State, t: nat, first: Pair)
    requires Inv(s, first) && Step(s, s', t)
    ensures Stays(s, s') && ThreadOk(s'.threads[t], t, s'.done, s'.holder)
    ensures s'.holder == s.holder || (s.holder == FREE && s'.holder == t) || (s.holder == t && s'.holder == FREE)
    ensures s'.done != s.done || s'.answers != s.answers || s'.wiped != s.wiped ==> s.holder == t && !s.done
  {
    hide SourceOk, NoticesOk, WipersOk, AddressOk;
    assert ThreadOk(s.threads[t], t, s.done, s.holder);
  }

  lemma ActKeepsSource(s: State, s': State, t: nat, first: Pair)
    requires Inv(s, first) && Step(s, s', t)
    ensures SourceOk(s', first)
  {
    hide NoticesOk, WipersOk, AddressOk, CopyOk;
    assert ThreadOk(s.threads[t], t, s.done, s.holder);
  }

  lemma ActKeepsAddress(s: State, s': State, t: nat, first: Pair)
    requires Inv(s, first) && Step(s, s', t)
    ensures AddressOk(s', first)
  {
    hide NoticesOk, WipersOk, CopyOk;
    var pc := s.threads[t].pc;
    assert ThreadOk(s.threads[t], t, s.done, s.holder);
    assert s.holder != FREE ==> ThreadOk(s.threads[s.holder], s.holder, s.done, s.holder);
    assert s'.answers[..s.copies] == s.answers[..s.copies];
    if pc.Answered? { assert s'.answers[..s'.copies] == s.answers; }
  }

  lemma ActKeepsWipers(s: State, s': State, t: nat)
    requires WipersOk(s) && Step(s, s', t)
    ensures WipersOk(s')
  {
    assert s'.wipers == s.wipers;
    assert (s'.source.ip == s.source.ip && s'.copies == s.copies) || s'.copies > s.copies;
    hide Step;
  }

  lemma NoticeSent(s: State, s': State, last: Pair, p: Pair, late: bool)
    requires NoticesOk(s, last) && s.done && s'.done && s'.wiped == s.wiped && (late ==> s.wiped)
    requires s'.notices == s.notices + [p] && s'.late == (if late then s.late + 1 else s.late)
    requires p == if late then Emptied(last) else last
    ensures NoticesOk(s', last)
  {
    assert s'.notices[|s.notices|] == p;
    forall q | q in s.notices ensures q in s'.notices {
      var k :| 0 <= k < |s.notices| && s.notices[k] == q;
      assert s'.notices[k] == q;
    }
    assert forall q :: q in s'.notices ==> q == p || q in s.notices;
  }

  lemma ActKeepsNotices(s: State, s': State, t: nat, first: Pair)
    requires Inv(s, first) && Step(s, s', t)
    ensures NoticesOk(s', Last(s'.answers, first))
  {
    var me, last := s.threads[t], Last(s.answers, first);
    assert ThreadOk(me, t, s.done, s.holder) && CopyOk(me, last, s.wiped);
    if me.pc.Addressed? {
      assert s.holder != FREE ==> ThreadOk(s.threads[s.holder], s.holder, s.done, s.holder);
      hide NoticesOk, WipersOk;
      NoticeSent(s, s', last, Pair(me.pc.ip, s.source.until), me.pc.late);
    } else {
      hide WipersOk, SourceOk, AddressOk;
    }
  }

  lemma ActKeepsCopy(s: State, s': State, t: nat, first: Pair)
    requires Inv(s, first) && Step(s, s', t)
    ensures CopyOk(s'.threads[t], Last(s'.answers, first), s'.wiped)
  {
    hide NoticesOk, WipersOk, AddressOk;
    assert ThreadOk(s.threads[t], t, s.done, s.holder);
    assert s.holder != FREE ==> ThreadOk(s.threads[s.holder], s.holder, s.done, s.holder);
  }

  lemma OtherKeeps(me: Thread, u: int, t: int, s: State, s': State, first: Pair)
    requires u != t && u != FREE && ThreadOk(me, u, s.done, s.holder) && CopyOk(me, Last(s.answers, first), s.wiped)
    requires s'.holder == s.holder || (s.holder == FREE && s'.holder == t) || (s.holder == t && s'.holder == FREE)
    requires s'.done != s.done || s'.answers != s.answers || s'.wiped != s.wiped ==> s.holder == t && !s.done
    requires s.done ==> s'.done
    ensures ThreadOk(me, u, s'.done, s'.holder) && CopyOk(me, Last(s'.answers, first), s'.wiped)
  {
  }

  lemma StepKeepsInv(s: State, s': State, t: nat, first: Pair)
    requires Inv(s, first) && Step(s, s', t)
    ensures Inv(s', first) && Stays(s, s')
  {
    ActKeeps(s, s', t, first);
    ActKeepsSource(s, s', t, first);
    ActKeepsAddress(s, s', t, first);
    ActKeepsWipers(s, s', t);
    ActKeepsNotices(s, s', t, first);
    ActKeepsCopy(s, s', t, first);
    hide Act, SourceOk, AddressOk, WipersOk, NoticesOk, ThreadOk, CopyOk, Last;
    forall u | 0 <= u < |s'.threads|
      ensures ThreadOk(s'.threads[u], u, s'.done, s'.holder)
      ensures CopyOk(s'.threads[u], Last(s'.answers, first), s'.wiped)
    {
      if u != t {
        assert s'.threads[u] == s.threads[u];
        OtherKeeps(s.threads[u], u, t, s, s', first);
      }
    }
  }

  lemma MatchKeepsInv(s: State, s': State, deleted: int, first: Pair)
    requires Inv(s, first) && Matches(s, s', deleted)
    ensures Inv(s', first) && Stays(s, s')
  {
    hide ThreadOk, CopyOk, NoticesOk;
    forall t | 0 <= t < |s'.threads|
      ensures ThreadOk(s'.threads[t], t, s'.done, s'.holder) && CopyOk(s'.threads[t], Last(s'.answers, first), s'.wiped)
    {
      assert s'.threads[t] == s.threads[t];
    }
    NoticesSame(s, s', Last(s.answers, first));
  }

  lemma NoticesSame(s: State, s': State, last: Pair)
    requires NoticesOk(s, last) && s'.notices == s.notices && s'.late == s.late && s'.done == s.done
    requires s.wiped ==> s'.wiped
    ensures NoticesOk(s', last)
  {
  }

  lemma WipeKeepsInv(s: State, s': State, w: Wiper, first: Pair)
    requires Inv(s, first) && Wipes(s, s', w)
    ensures Inv(s', first) && Stays(s, s')
  {
    hide NoticesOk;
    assert s.holder != FREE ==> ThreadOk(s.threads[s.holder], s.holder, s.done, s.holder);
    forall t | 0 <= t < |s'.threads| ensures CopyOk(s'.threads[t], Last(s'.answers, first), s'.wiped) {
      assert CopyOk(s.threads[t], Last(s.answers, first), s.wiped);
    }
    NoticesSame(s, s', Last(s.answers, first));
  }

  lemma NextKeepsInv(s: State, s': State, first: Pair)
    requires Inv(s, first) && Next(s, s')
    ensures Inv(s', first) && Stays(s, s')
  {
    hide Inv, Stays, Step, Matches, Wipes;
    if t: nat :| Step(s, s', t) {
      StepKeepsInv(s, s', t, first);
    } else if deleted :| Matches(s, s', deleted) {
      MatchKeepsInv(s, s', deleted, first);
    } else {
      var w :| Wipes(s, s', w);
      WipeKeepsInv(s, s', w, first);
    }
  }

  // ----------------------------------------------------------------- whole runs

  lemma InitInv(s: State)
    requires Init(s)
    ensures Inv(s, s.source)
  {
  }

  lemma {:induction false} RunInv(r: seq<State>, i: nat)
    requires IsRun(r) && i < |r|
    ensures Inv(r[i], r[0].source)
  {
    hide Inv, Init, Next, Stays;
    if i == 0 {
      InitInv(r[0]);
    } else {
      RunInv(r, i - 1);
      assert Next(r[i - 1], r[i - 1 + 1]);
      NextKeepsInv(r[i - 1], r[i], r[0].source);
    }
  }

  lemma RunStays(r: seq<State>, i: nat)
    requires IsRun(r) && i + 1 < |r|
    ensures Stays(r[i], r[i + 1])
  {
    hide Inv, Init, Next, Stays;
    RunInv(r, i);
    assert Next(r[i], r[i + 1]);
    NextKeepsInv(r[i], r[i + 1], r[0].source);
  }

  /** Nobody reports before a notice has been sent. */
  lemma {:induction false} ReportsAfterNotice(r: seq<State>, i: nat, t: nat)
    requires IsRun(r) && i < |r| && t < |r[i].threads| && r[i].threads[t].pc.Reporting?
    ensures r[i].notices != []
  {
    hide Next, Init;
    if i == 0 {
      NobodyReports(r[0], t);
    } else {
      assert Next(r[i - 1], r[i - 1 + 1]);
      NextReports(r[i - 1], r[i], t);
      if r[i - 1].threads[t].pc.Reporting? { ReportsAfterNotice(r, i - 1, t); }
    }
  }

  lemma NobodyReports(s: State, t: nat)
    requires Init(s) && t < |s.threads|
    ensures !s.threads[t].pc.Reporting?
  {
  }

  lemma NextReports(s: State, s': State, t: nat)
    requires Next(s, s') && t < |s'.threads| && s'.threads[t].pc.Reporting?
    ensures t < |s.threads| && (s.threads[t].pc.Reporting? || s'.notices != []) && s.notices <= s'.notices
  {
    hide Step;
    if u: nat :| Step(s, s', u) { StepReports(s, s', u, t); }
  }

  lemma StepReports(s: State, s': State, u: nat, t: nat)
    requires Step(s, s', u) && t < |s'.threads| && s'.threads[t].pc.Reporting?
    ensures t < |s.threads| && (s.threads[t].pc.Reporting? || s'.notices != []) && s.notices <= s'.notices
  {
    if u != t { assert s'.threads[t] == s.threads[t]; }
  }

  /** Thread t can go on. */
  ghost predicate CanStep(s: State, t: nat) {
    exists s' :: Step(s, s', t)
  }

  /** What a thread that does not wait for the lock can do next: where it goes, and what it does to the shared state. */
  function NextThread(s: State, me: Thread): Thread {
    match me.pc
    case Starting => Thread(Connecting, s.done)
    case Connecting => me
    case Locking => me.(pc := Holding)
    case Holding => me.(pc := if s.done then Unlocking else Requesting)
    case Requesting => me.(pc := Releasing)
    case Answered(a) => me.(pc := HalfWritten(a))
    case HalfWritten(a) => me.(pc := Responding)
    case Responding => me.(pc := Succeeded)
    case Succeeded => me.(pc := Saving)
    case Saving => me.(pc := Unlocking)
    case Releasing => me.(pc := Connecting)
    case Unlocking => me.(pc := Unlocked)
    case Unlocked => Thread(Notifying, true)
    case Quitting => me.(pc := Exited)
    case Notifying => me.(pc := Addressed(s.source.ip, s.wiped))
    case Addressed(_, _) => me.(pc := Reporting)
    case Reporting => me
    case Exited => me
  }

  function NextShared(s: State, t: nat, me: Thread): State {
    match me.pc
    case Locking => s.(holder := t)
    case Answered(a) => s.(source := s.source.(ip := a.ip), copies := s.copies + 1, wiped := false)
    case HalfWritten(a) => s.(source := s.source.(until := a.until))
    case Succeeded => s.(done := true)
    case Releasing => s.(holder := FREE)
    case Unlocking => s.(holder := FREE)
    case Quitting => s.(holder := FREE)
    case Addressed(ip, late) =>
      s.(notices := s.notices + [Pair(ip, s.source.until)], late := if late then s.late + 1 else s.late)
    case _ => s
  }

  function Onward(s: State, t: nat): State
    requires t < |s.threads|
  {
    NextShared(s, t, s.threads[t]).(threads := s.threads[t := NextThread(s, s.threads[t])])
  }

  lemma GoesOnward(s: State, t: nat)
    requires t < |s.threads| && !s.threads[t].pc.Exited? && (s.threads[t].pc.Locking? ==> s.holder == FREE)
    ensures CanStep(s, t)
  {
    OnwardActs(s, t, s.threads[t], NextThread(s, s.threads[t]), Onward(s, t));
    hide Act, NextShared, NextThread;
    assert Step(s, Onward(s, t), t);
  }

  lemma OnwardActs(s: State, t: nat, me: Thread, me': Thread, s': State)
    requires !me.pc.Exited? && (me.pc.Locking? ==> s.holder == FREE) && me' == NextThread(s, me)
    requires s' == NextShared(s, t, me).(threads := s'.threads)
    ensures Act(s, s', t, me, me')
  {
  }

  /** No thread is stuck in any run: it can go on, or it waits for the lock and the thread that has it can. */
  lemma NoThreadStuck(r: seq<State>, i: nat, t: nat)
    requires IsRun(r) && i < |r| && t < |r[i].threads| && !r[i].threads[t].pc.Exited?
    ensures CanStep(r[i], t) ||
            (r[i].threads[t].pc.Locking? && 0 <= r[i].holder < |r[i].threads| && CanStep(r[i], r[i].holder))
  {
    RunInv(r, i);
    var s := r[i];
    if s.threads[t].pc.Locking? && s.holder != FREE {
      assert ThreadOk(s.threads[s.holder], s.holder, s.done, s.holder);
      hide Step;
      GoesOnward(s, s.holder);
    } else {
      hide Step;
      GoesOnward(s, t);
    }
  }

  /** Between two states of a run: what was settled is still settled, the timestamp is the same, and the address is the
      same or has meanwhile been emptied. */
  ghost predicate StillSettled(s: State, s': State) {
    s.done ==>
      && s'.done && s'.answers == s.answers && s'.copies == s.copies && s'.source.until == s.source.until
      && (s.wiped ==> s'.wiped)
      && (s'.source.ip == s.source.ip || (s'.source.ip == EMPTY && !s.wiped && s'.wiped))
  }

  lemma StillLater(a: State, b: State, c: State)
    requires StillSettled(a, b) && Stays(b, c)
    ensures StillSettled(a, c)
  {
  }

  /** Once g_sync_old_done is true it stays true, no further answer is taken, the timestamp never changes, and the
      address changes at most once, and only to the empty one. */
  lemma {:induction false} SettledForever(r: seq<State>, i: nat, j: nat)
    requires IsRun(r) && i <= j < |r|
    ensures StillSettled(r[i], r[j])
  {
    if i < j {
      hide Next, Init, Stays, StillSettled;
      SettledForever(r, i, j - 1);
      RunStays(r, j - 1);
      StillLater(r[i], r[j - 1], r[j]);
    }
  }

  /** g_sync_old_done becomes true at most once. */
  lemma SettledOnce(r: seq<State>, i: nat, j: nat)
    requires IsRun(r) && i + 1 < |r| && j + 1 < |r|
    requires !r[i].done && r[i + 1].done && !r[j].done && r[j + 1].done
    ensures i == j
  {
    hide Next, Init;
    if i < j { SettledForever(r, i + 1, j); }
    if j < i { SettledForever(r, j + 1, i); }
  }

  /** A thread's own flag implies the shared one. */
  lemma LocalImpliesGlobal(r: seq<State>, i: nat, t: nat)
    requires IsRun(r) && i < |r| && t < |r[i].threads| && r[i].threads[t].done
    ensures r[i].done
  {
    RunInv(r, i);
    assert ThreadOk(r[i].threads[t], t, r[i].done, r[i].holder);
  }

  /** No SYNC_NOTIFY is sent before the matter is settled.  Every one of them, from whatever thread and at whatever
      time, carries the untorn pair that was settled -- the last answer that any thread received, or what was known at
      the start -- or that pair with its address wiped out. */
  lemma NoticesCarryThePair(r: seq<State>, i: nat, k: nat)
    requires IsRun(r) && i < |r| && k < |r[i].notices|
    ensures var last := Last(r[i].answers, r[0].source);
            r[i].done && (r[i].notices[k] == last || (r[i].wiped && r[i].notices[k] == Emptied(last)))
  {
    RunInv(r, i);
    assert r[i].notices[k] in r[i].notices;
  }

  ghost predicate AllAgree(notices: seq<Pair>) {
    forall p, q :: p in notices && q in notices ==> p == q
  }

  /** All notices sent so far agree if and only if none of them took its address after it had been wiped out, or all of
      them did, or the address that was settled is empty anyway. */
  lemma NoticesAgreeIff(r: seq<State>, i: nat)
    requires IsRun(r) && i < |r|
    ensures AllAgree(r[i].notices) <==>
              r[i].late == 0 || r[i].late == |r[i].notices| || Last(r[i].answers, r[0].source).ip == EMPTY
  {
    RunInv(r, i);
    var s, last := r[i], Last(r[i].answers, r[0].source);
    hide IsRun, Inv;
    if 0 < s.late < |s.notices| && last.ip != EMPTY {
      assert last in s.notices && Emptied(last) in s.notices && last != Emptied(last);
    }
  }

  /** A sync thread empties the address of another server, one that is not deleted, only if an answer has been copied
      since it compared. */
  lemma WipesItsOwn(r: seq<State>, i: nat, w: Wiper)
    requires IsRun(r) && i < |r| && w in r[i].wipers && w.since == r[i].copies
    ensures r[i].source.ip == w.ip || r[i].source.ip == EMPTY
  {
    RunInv(r, i);
  }

  /** It does so if and only if the answer copied last names another server and has not been wiped out yet. */
  lemma WipesAnotherIff(r: seq<State>, i: nat, w: Wiper)
    requires IsRun(r) && i < |r| && w in r[i].wipers
    ensures r[i].copies <= |r[i].answers|
    ensures var copied := Last(r[i].answers[..r[i].copies], r[0].source);
            r[i].source.ip !in {w.ip, EMPTY} <==> !r[i].wiped && copied.ip !in {w.ip, EMPTY}
  {
    RunInv(r, i);
  }

  /** It never does if it compared when the matter was settled. */
  lemma WipesItsOwnOnceSettled(r: seq<State>, i: nat, j: nat, w: Wiper)
    requires IsRun(r) && i <= j < |r| && r[i].done && w in r[j].wipers && w.since == r[i].copies
    ensures r[j].source.ip == w.ip || r[j].source.ip == EMPTY
  {
    hide IsRun;
    SettledForever(r, i, j);
    WipesItsOwn(r, j, w);
  }

  // ----------------------------------------------------------------- runs in which the address is wiped out

  /** One thread; the source is already known. */
  function Alone(me: Thread, ip: int, wipers: multiset<Wiper>, notices: seq<Pair>, late: nat): State {
    State(true, Pair(ip, 7), true, FREE, [me], [], notices, wipers, 0, ip == EMPTY, late)
  }

  lemma NotifiesOnce(ip: int, notices: seq<Pair>, late: nat)
    ensures var me, wiped, none := Thread(Connecting, true), ip == EMPTY, multiset{};
            var asked, taken := Thread(Notifying, true), Thread(Addressed(ip, wiped), true);
            && Step(Alone(me, ip, none, notices, late), Alone(asked, ip, none, notices, late), 0)
            && Step(Alone(asked, ip, none, notices, late), Alone(taken, ip, none, notices, late), 0)
            && Step(Alone(taken, ip, none, notices, late),
                    Alone(me, ip, none, notices + [Pair(ip, 7)], if wiped then late + 1 else late), 0)
  {
  }

  lemma WipesOnce(notices: seq<Pair>)
    ensures var me, w := Thread(Connecting, true), multiset{Wiper(1, 0)};
            && Matches(Alone(me, 1, multiset{}, notices, 0), Alone(me, 1, w, notices, 0), 1)
            && Wipes(Alone(me, 1, w, notices, 0), Alone(me, EMPTY, multiset{}, notices, 0), Wiper(1, 0))
  {
    assert multiset{} + multiset{Wiper(1, 0)} == multiset{Wiper(1, 0)};
    assert multiset{Wiper(1, 0)} - multiset{Wiper(1, 0)} == multiset{};
  }

  lemma StartsKnowing()
    ensures var me := Thread(Connecting, true);
            && Step(Alone(Thread(Starting, false), 1, multiset{}, [], 0), Alone(me, 1, multiset{}, [], 0), 0)
            && Init(Alone(Thread(Starting, false), 1, multiset{}, [], 0))
  {
  }

  /** One thread, one known source: it notifies, the source is deleted, and after a reconnect it notifies again. */
  lemma TwoNotices() returns (r: seq<State>)
    ensures IsRun(r) && r[|r| - 1].notices == [Pair(1, 7), Pair(EMPTY, 7)]
  {
    var me, asked := Thread(Connecting, true), Thread(Notifying, true);
    var p, q, none := Pair(1, 7), Pair(EMPTY, 7), multiset{};
    StartsKnowing();
    NotifiesOnce(1, [], 0);
    WipesOnce([p]);
    NotifiesOnce(EMPTY, [p], 0);
    assert [] + [p] == [p] && [p] + [q] == [p, q];
    assert Alone(me, EMPTY, none, [p, q], 1).notices == [p, q];
    hide Step, Matches, Wipes, Init, Alone;
    r := [Alone(Thread(Starting, false), 1, none, [], 0), Alone(me, 1, none, [], 0), Alone(asked, 1, none, [], 0),
          Alone(Thread(Addressed(1, false), true), 1, none, [], 0), Alone(me, 1, none, [p], 0),
          Alone(me, 1, multiset{Wiper(1, 0)}, [p], 0), Alone(me, EMPTY, none, [p], 0),
          Alone(asked, EMPTY, none, [p], 0), Alone(Thread(Addressed(EMPTY, true), true), EMPTY, none, [p], 0),
          Alone(me, EMPTY, none, [p, q], 1)];
  }

  /** The same thread, with the source deleted before it notifies: its only notice has no address. */
  lemma EmptyNotice() returns (r: seq<State>)
    ensures IsRun(r) && r[|r| - 1].notices == [Pair(EMPTY, 7)] && r[|r| - 1].late == 1
  {
    var me, asked := Thread(Connecting, true), Thread(Notifying, true);
    var q, none := Pair(EMPTY, 7), multiset{};
    StartsKnowing();
    WipesOnce([]);
    NotifiesOnce(EMPTY, [], 0);
    assert [] + [q] == [q];
    assert Alone(me, EMPTY, none, [q], 1).notices == [q] && Alone(me, EMPTY, none, [q], 1).late == 1;
    hide Step, Matches, Wipes, Init, Alone;
    r := [Alone(Thread(Starting, false), 1, none, [], 0), Alone(me, 1, none, [], 0),
          Alone(me, 1, multiset{Wiper(1, 0)}, [], 0), Alone(me, EMPTY, none, [], 0),
          Alone(asked, EMPTY, none, [], 0), Alone(Thread(Addressed(EMPTY, true), true), EMPTY, none, [], 0),
          Alone(me, EMPTY, none, [q], 1)];
  }

  /** One thread that asks, with server 1 known from before; the answer is server 2. */
  ghost function Asks(
    pc: Pc, source: Pair, answers: seq<Pair>, wipers: multiset<Wiper>, copies: nat, wiped: bool): State
  {
    var holder := if Critical(pc) then 0 else FREE;
    State(false, source, true, holder, [Thread(pc, false)], answers, [], wipers, copies, wiped, 0)
  }

  lemma GetsReady(p: Pair)
    ensures var none := multiset{};
            && Init(Asks(Starting, p, [], none, 0, false))
            && Step(Asks(Starting, p, [], none, 0, false), Asks(Connecting, p, [], none, 0, false), 0)
            && Step(Asks(Connecting, p, [], none, 0, false), Asks(Locking, p, [], none, 0, false), 0)
            && Step(Asks(Locking, p, [], none, 0, false), Asks(Holding, p, [], none, 0, false), 0)
            && Step(Asks(Holding, p, [], none, 0, false), Asks(Requesting, p, [], none, 0, false), 0)
  {
  }

  lemma IsAnswered(p: Pair, a: Pair, w: multiset<Wiper>)
    ensures Step(Asks(Requesting, p, [], w, 0, false), Asks(Answered(a), p, [a], w, 0, false), 0)
    ensures Step(Asks(Answered(a), p, [a], w, 0, false), Asks(HalfWritten(a), Pair(a.ip, p.until), [a], w, 1, false), 0)
  {
    assert [] + [a] == [a];
  }

  lemma ComparesAndWipes(p: Pair, q: Pair, a: Pair)
    requires p.ip != EMPTY
    ensures var none, w := multiset{}, multiset{Wiper(p.ip, 0)};
            && Matches(Asks(Requesting, p, [], none, 0, false), Asks(Requesting, p, [], w, 0, false), p.ip)
            && Wipes(Asks(HalfWritten(a), q, [a], w, 1, false), Asks(HalfWritten(a), Emptied(q), [a], none, 1, true),
                     Wiper(p.ip, 0))
  {
    var w := multiset{Wiper(p.ip, 0)};
    assert multiset{} + w == w && w - w == multiset{};
  }

  /** Server 1 is deleted; its sync thread compares, the answer naming server 2 is copied, and then the thread empties
      that: the address of a server that is not deleted is lost. */
  lemma WipesAnother() returns (r: seq<State>)
    ensures IsRun(r) && |r| >= 2 && Wipes(r[|r| - 2], r[|r| - 1], Wiper(1, 0))
    ensures r[|r| - 2].source.ip == 2 && r[|r| - 1].source.ip == EMPTY && r[|r| - 1].answers == [Pair(2, 9)]
  {
    var p, a, q, none, w := Pair(1, 7), Pair(2, 9), Pair(2, 7), multiset{}, multiset{Wiper(1, 0)};
    GetsReady(p);
    IsAnswered(p, a, w);
    ComparesAndWipes(p, q, a);
    var s, s' := Asks(HalfWritten(a), q, [a], w, 1, false), Asks(HalfWritten(a), Emptied(q), [a], none, 1, true);
    assert s.source.ip == 2 && s'.source.ip == EMPTY && s'.answers == [a];
    hide Step, Matches, Wipes, Init, Asks;
    r := [Asks(Starting, p, [], none, 0, false), Asks(Connecting, p, [], none, 0, false),
          Asks(Locking, p, [], none, 0, false), Asks(Holding, p, [], none, 0, false),
          Asks(Requesting, p, [], none, 0, false), Asks(Requesting, p, [], w, 0, false),
          Asks(Answered(a), p, [a], w, 0, false), s, s'];
  }

  /** The same, with no sync thread about. */
  ghost function Calm(pc: Pc, source: Pair, answers: seq<Pair>, copies: nat): State {
    Asks(pc, source, answers, multiset{}, copies, false)
  }

  lemma TriesAgain(p: Pair, answers: seq<Pair>, n: nat)
    ensures Step(Calm(Responding, p, answers, n), Calm(Releasing, p, answers, n), 0)
    ensures Step(Calm(Releasing, p, answers, n), Calm(Connecting, p, answers, n), 0)
    ensures Step(Calm(Connecting, p, answers, n), Calm(Locking, p, answers, n), 0)
    ensures Step(Calm(Locking, p, answers, n), Calm(Holding, p, answers, n), 0)
    ensures Step(Calm(Holding, p, answers, n), Calm(Requesting, p, answers, n), 0)
  {
  }

  lemma TakesAnswer(p: Pair, answers: seq<Pair>, n: nat, a: Pair, more: seq<Pair>)
    requires more == answers + [a]
    ensures Step(Calm(Requesting, p, answers, n), Calm(Answered(a), p, more, n), 0)
    ensures Step(Calm(Answered(a), p, more, n), Calm(HalfWritten(a), Pair(a.ip, p.until), more, n + 1), 0)
    ensures Step(Calm(HalfWritten(a), Pair(a.ip, p.until), more, n + 1), Calm(Responding, a, more, n + 1), 0)
  {
  }

  lemma SettlesNow(p: Pair, answers: seq<Pair>, n: nat)
    ensures Step(Calm(Requesting, p, answers, n), Calm(Succeeded, p, answers, n), 0)
    ensures Step(Calm(Responding, p, answers, n), Calm(Succeeded, p, answers, n), 0)
    ensures Step(Calm(Succeeded, p, answers, n), Calm(Saving, p, answers, n).(done := true), 0)
  {
  }

  /** An answer whose receipt cannot be confirmed is asked for again, and the second one counts. */
  lemma SecondAnswerCounts(p: Pair, a: Pair, b: Pair) returns (r: seq<State>)
    ensures IsRun(r) && r[|r| - 1].done && r[|r| - 1].answers == [a, b] && r[|r| - 1].source == b
  {
    GetsReady(p);
    TakesAnswer(p, [], 0, a, [a]);
    TriesAgain(a, [a], 1);
    TakesAnswer(a, [a], 1, b, [a, b]);
    SettlesNow(b, [a, b], 2);
    var s := Calm(Saving, b, [a, b], 2).(done := true);
    assert s.done && s.answers == [a, b] && s.source == b;
    hide Step, Init, Asks;
    r := [Calm(Starting, p, [], 0), Calm(Connecting, p, [], 0), Calm(Locking, p, [], 0), Calm(Holding, p, [], 0),
          Calm(Requesting, p, [], 0), Calm(Answered(a), p, [a], 0), Calm(HalfWritten(a), Pair(a.ip, p.until), [a], 1),
          Calm(Responding, a, [a], 1), Calm(Releasing, a, [a], 1), Calm(Connecting, a, [a], 1),
          Calm(Locking, a, [a], 1), Calm(Holding, a, [a], 1), Calm(Requesting, a, [a], 1),
          Calm(Answered(b), a, [a, b], 1),
          Calm(HalfWritten(b), Pair(b.ip, a.until), [a, b], 2), Calm(Responding, b, [a, b], 2),
          Calm(Succeeded, b, [a, b], 2), s];
  }

  /** An empty answer settles that what is known stays. */
  lemma EmptyAnswerSettles(p: Pair) returns (r: seq<State>)
    ensures IsRun(r) && r[|r| - 1].done && r[|r| - 1].answers == [] && r[|r| - 1].source == p
  {
    GetsReady(p);
    SettlesNow(p, [], 0);
    var s := Calm(Saving, p, [], 0).(done := true);
    assert s.done && s.answers == [] && s.source == p;
    hide Step, Init, Asks;
    r := [Calm(Starting, p, [], 0), Calm(Connecting, p, [], 0), Calm(Locking, p, [], 0), Calm(Holding, p, [], 0),
          Calm(Requesting, p, [], 0), Calm(Succeeded, p, [], 0), s];
  }
}
