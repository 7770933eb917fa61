/** The leader/follower worker pool of dserver (thread.c) over one-shot epoll (ae_epoll.c).

    A state holds what the workers share -- `loop.conns`, `loop.fired`, `loop.nready`, the leader
    mutex, the free list of connection structures -- together with the part of the kernel the
    protocol relies on: which descriptors are open and how each stands with epoll.  Every access to
    shared memory and every system call is a step of its own, so a run is an arbitrary interleaving
    of any number of workers.  `drive_machine` is kept to its effects on this state: it accepts and
    registers any number of descriptors, and then returns 1, or closes its connection.  A worker may
    see `daemon_quit` whenever it tests it. */
module WorkerPool {

  const AE_SETSIZE: int := 1024 * 60

  type Fd = int
  type Conn = int
  type Worker = nat

  /** Program points of one worker.  `fd` and `c` are the locals of worker_main. */
  datatype Pc =
    | Idle
    | Leading                                            // holds the leader mutex
    | Taken(fd: Fd)                                      // holds the mutex, has read fired[--nready]
    | Bug(fd: Fd)                                        // "Bug: conn should not be NULL"
    | Run(run: RunStage, fd: Fd, c: Conn)                // drive_machine, then update_event
    | Register(reg: RegStage, fd: Fd, c: Conn, sfd: Fd)  // drive_machine has accepted sfd
    | Close(close: CloseStage, fd: Fd, c: Conn)          // inside conn_close
    | Shut(c: Conn)                                      // close(c->sfd) done, c not yet recycled
    | Exited

  datatype RunStage =
    | Driving               // inside drive_machine
    | Restored              // it returned 1 and update_event has stored loop.conns[fd]
    | ModFailed             // EPOLL_CTL_MOD failed

  datatype RegStage =
    | Accepted
    | Attaching(nc: Conn)   // conn_new is about to call add_event
    | Adding(nc: Conn)      // add_event has stored loop.conns[sfd]
    | AddFailed(nc: Conn)   // EPOLL_CTL_ADD failed
    | Rejected(nc: Conn)    // add_event returned an error
    | Dropping              // about to close sfd

  datatype CloseStage =
    | Entered               // after a failed update_event, which has cleared loop.conns[fd]
    | Unlinked              // delete_event has cleared loop.conns[fd]
    | Deregistered          // EPOLL_CTL_DEL done

  /** How an open descriptor stands with epoll; EPOLLONESHOT disarms a descriptor when it fires. */
  datatype Interest = Unregistered | Disarmed | Armed

  datatype Queue = Queue(
    fired: seq<Fd>,                // loop.fired
    nready: nat,                   // loop.nready
    leader: set<Worker>)           // the workers that hold the leader mutex

  datatype Heap = Heap(
    sfd: map<Conn, Fd>,            // c->sfd of every allocated structure
    freelist: seq<Conn>)           // freeconns[..freecurr]

  datatype State = State(
    kernel: map<Fd, Interest>,     // the open descriptors
    conns: map<Fd, Conn>,          // loop.conns; an absent descriptor is a NULL slot
    queue: Queue,
    heap: Heap,
    pc: map<Worker, Pc>)

  ghost predicate Registered(k: map<Fd, Interest>, fd: Fd) {
    fd in k && !k[fd].Unregistered?
  }

  ghost predicate IsArmed(k: map<Fd, Interest>, fd: Fd) {
    fd in k && k[fd].Armed?
  }

  /** conn_add_to_freelist, or conn_free when that fails or the buffers are too big. */
  ghost function RecycleConn(h: Heap, c: Conn, keep: bool): Heap {
    if keep then Heap(h.sfd, h.freelist + [c]) else Heap(h.sfd - {c}, h.freelist)
  }

  ghost predicate NoDup(q: seq<int>) {
    forall i, j :: 0 <= i < j < |q| ==> q[i] != q[j]
  }

  // ----------------------------------------------------------------- worker_main up to drive_machine

  datatype LoopAct = Lock | Quit | Poll(events: seq<Fd>) | Take | Lookup | BugClose

  ghost predicate LoopEnabled(s: State, p: Pc, a: LoopAct) {
    var q := s.queue;
    match a
    case Lock => p.Idle? && q.leader == {}
    case Quit => p.Idle? || p.Leading?
    // epoll_wait reports armed descriptors, each at most once
    case Poll(events) => p.Leading? && q.nready == 0 && |events| <= AE_SETSIZE <= |q.fired|
                         && NoDup(events) && (forall i :: 0 <= i < |events| ==> IsArmed(s.kernel, events[i]))
    case Take => p.Leading? && 0 < q.nready <= |q.fired|
    case Lookup => p.Taken?
    case BugClose => p.Bug?
  }

  ghost function LoopNext(s: State, w: Worker, p: Pc, a: LoopAct): State
    requires LoopEnabled(s, p, a)
  {
    var State(k, conns, q, h, pc) := s;
    match a
    case Lock => State(k, conns, q.(leader := {w}), h, pc[w := Leading])
    case Quit => State(k, conns, q.(leader := q.leader - {w}), h, pc[w := Exited])
    case Poll(events) =>
      State(map fd | fd in k :: if fd in events then Disarmed else k[fd], conns,
            Queue(events + q.fired[|events|..], |events|, q.leader), h, pc)
    case Take => State(k, conns, q.(nready := q.nready - 1), h, pc[w := Taken(q.fired[q.nready - 1])])
    case Lookup =>
      if p.fd in conns
      then State(k, conns, q.(leader := q.leader - {w}), h, pc[w := Run(Driving, p.fd, conns[p.fd])])
      else State(k, conns, q, h, pc[w := Bug(p.fd)])
    case BugClose => State(k - {p.fd}, conns - {p.fd}, q, h, pc[w := Leading])
  }

  // ----------------------------------------------------------------- accept, conn_new and add_event

  datatype RegAct =
    | Accept(newFd: Fd) | NewFromFreelist | NewFromHeap(newConn: Conn)
    | StoreNew | EpollAdd(ok: bool) | UnstoreNew | Recycle(keep: bool) | CloseNew

  ghost predicate RegEnabled(s: State, p: Pc, a: RegAct) {
    match a
    // accept returns a descriptor number that is not in use
    case Accept(newFd) => p.Run? && p.run.Driving? && newFd !in s.kernel
    case NewFromFreelist => p.Register? && p.reg.Accepted? && s.heap.freelist != []
    // the free list was found empty, perhaps a while ago; calloc returns memory that is not in use
    case NewFromHeap(newConn) => p.Register? && p.reg.Accepted? && newConn !in s.heap.sfd
    case StoreNew => p.Register? && p.reg.Attaching?
    case EpollAdd(_) => p.Register? && p.reg.Adding?
    case UnstoreNew => p.Register? && p.reg.AddFailed?
    case Recycle(_) => p.Register? && p.reg.Rejected?
    // also when fcntl or calloc has failed
    case CloseNew => p.Register? && (p.reg.Dropping? || p.reg.Accepted?)
  }

  ghost function RegNext(s: State, w: Worker, p: Pc, a: RegAct): State
    requires RegEnabled(s, p, a)
  {
    var State(k, conns, q, h, pc) := s;
    match a
    case Accept(newFd) => State(k[newFd := Unregistered], conns, q, h, pc[w := Register(Accepted, p.fd, p.c, newFd)])
    case NewFromFreelist =>
      var last := |h.freelist| - 1;
      State(k, conns, q, Heap(h.sfd[h.freelist[last] := p.sfd], h.freelist[..last]),
            pc[w := Register(Attaching(h.freelist[last]), p.fd, p.c, p.sfd)])
    case NewFromHeap(c) =>
      State(k, conns, q, Heap(h.sfd[c := p.sfd], h.freelist), pc[w := Register(Attaching(c), p.fd, p.c, p.sfd)])
    case StoreNew =>
      if p.sfd >= AE_SETSIZE
      then State(k, conns, q, h, pc[w := Register(Rejected(p.reg.nc), p.fd, p.c, p.sfd)])
      else State(k, conns[p.sfd := p.reg.nc], q, h, pc[w := Register(Adding(p.reg.nc), p.fd, p.c, p.sfd)])
    case EpollAdd(ok) =>
      if !ok then State(k, conns, q, h, pc[w := Register(AddFailed(p.reg.nc), p.fd, p.c, p.sfd)])
      else if Registered(k, p.sfd)   // EEXIST passes for success
      then State(k, conns, q, h, pc[w := Run(Driving, p.fd, p.c)])
      else State(k[p.sfd := Armed], conns, q, h, pc[w := Run(Driving, p.fd, p.c)])
    case UnstoreNew => State(k, conns - {p.sfd}, q, h, pc[w := Register(Rejected(p.reg.nc), p.fd, p.c, p.sfd)])
    case Recycle(keep) =>
      State(k, conns, q, RecycleConn(h, p.reg.nc, keep), pc[w := Register(Dropping, p.fd, p.c, p.sfd)])
    case CloseNew => State(k - {p.sfd}, conns, q, h, pc[w := Run(Driving, p.fd, p.c)])
  }

  // ----------------------------------------------------------------- update_event and conn_close

  datatype EndAct =
    | Restore | EpollMod(ok: bool) | Unrestore | Unlink | EpollDel(ok: bool) | CloseFd | Release(keep: bool)

  ghost predicate EndEnabled(s: State, p: Pc, a: EndAct) {
    match a
    case Restore => p.Run? && p.run.Driving?
    // EPOLL_CTL_MOD fails with ENOENT on a descriptor that is not registered
    case EpollMod(ok) => p.Run? && p.run.Restored? && (ok ==> Registered(s.kernel, p.fd))
    case Unrestore => p.Run? && p.run.ModFailed?
    case Unlink => ((p.Run? && p.run.Driving?) || (p.Close? && p.close.Entered?)) && p.c in s.heap.sfd
    case EpollDel(_) => p.Close? && p.close.Unlinked? && p.c in s.heap.sfd
    case CloseFd => p.Close? && p.close.Deregistered? && p.c in s.heap.sfd
    case Release(_) => p.Shut?
  }

  ghost function EndNext(s: State, w: Worker, p: Pc, a: EndAct): State
    requires EndEnabled(s, p, a)
  {
    var State(k, conns, q, h, pc) := s;
    match a
    case Restore => State(k, conns[p.fd := p.c], q, h, pc[w := Run(Restored, p.fd, p.c)])
    case EpollMod(ok) =>
      if ok then State(k[p.fd := Armed], conns, q, h, pc[w := Idle])
      else State(k, conns, q, h, pc[w := Run(ModFailed, p.fd, p.c)])
    case Unrestore => State(k, conns - {p.fd}, q, h, pc[w := Close(Entered, p.fd, p.c)])
    case Unlink =>
      State(k, if h.sfd[p.c] >= AE_SETSIZE then conns else conns - {h.sfd[p.c]}, q, h,
            pc[w := Close(Unlinked, p.fd, p.c)])
    case EpollDel(ok) =>
      var fd := h.sfd[p.c];
      State(if ok && fd < AE_SETSIZE && fd in k then k[fd := Unregistered] else k, conns, q, h,
            pc[w := Close(Deregistered, p.fd, p.c)])
    case CloseFd => State(k - {h.sfd[p.c]}, conns, q, Heap(h.sfd[p.c := -1], h.freelist), pc[w := Shut(p.c)])
    case Release(keep) => State(k, conns, q, RecycleConn(h, p.c, keep), pc[w := Idle])
  }

  // ----------------------------------------------------------------- runs

  datatype Action = Loop(loop: LoopAct) | Reg(reg: RegAct) | End(end: EndAct)

  ghost predicate Moves(s: State, w: Worker, a: Action, s': State) {
    w in s.pc &&
    match a
    case Loop(l) => LoopEnabled(s, s.pc[w], l) && s' == LoopNext(s, w, s.pc[w], l)
    case Reg(r) => RegEnabled(s, s.pc[w], r) && s' == RegNext(s, w, s.pc[w], r)
    case End(e) => EndEnabled(s, s.pc[w], e) && s' == EndNext(s, w, s.pc[w], e)
  }

  ghost predicate Step(s: State, s': State) {
    exists w, a :: Moves(s, w, a, s')
  }

  /** server_socket has registered some listening descriptors and no worker has started. */
  ghost predicate Init(s: State) {
    && s.queue.nready == 0 && |s.queue.fired| == AE_SETSIZE && s.queue.leader == {} && s.heap.freelist == []
    && s.kernel.Keys == s.conns.Keys
    && (forall fd :: fd in s.kernel ==> s.kernel[fd].Armed?)
    && (forall fd :: fd in s.conns ==>
          0 <= fd < AE_SETSIZE && s.conns[fd] in s.heap.sfd && s.heap.sfd[s.conns[fd]] == fd)
    && (forall c :: c in s.heap.sfd ==> s.heap.sfd[c] in s.conns && s.conns[s.heap.sfd[c]] == c)
    && (forall w :: w in s.pc ==> s.pc[w].Idle?)
  }

  ghost predicate Behaviour(run: seq<State>) {
    run != [] && Init(run[0]) && forall i :: 0 < i < |run| ==> Step(run[i - 1], run[i])
  }

  // ----------------------------------------------------------------- ownership of descriptors

  /** Worker program point `p` has descriptor `fd` in hand. */
  ghost predicate Holds(p: Pc, fd: Fd) {
    match p
    case Taken(f) => fd == f
    case Bug(f) => fd == f
    case Run(_, f, _) => fd == f
    case Register(_, f, _, g) => fd == f || fd == g
    case Close(_, f, _) => fd == f
    case _ => false
  }

  ghost predicate InFired(s: State, fd: Fd, i: int) {
    0 <= i < s.queue.nready <= |s.queue.fired| && s.queue.fired[i] == fd
  }

  ghost predicate HeldBy(s: State, fd: Fd, w: Worker) {
    w in s.pc && Holds(s.pc[w], fd)
  }

  /** `fd` is armed, or in one slot of fired[..nready], or in the hands of one worker, and only one of these. */
  ghost predicate OwnedOnce(s: State, fd: Fd) {
    && (IsArmed(s.kernel, fd) || (exists i :: InFired(s, fd, i)) || (exists w :: HeldBy(s, fd, w)))
    && !(IsArmed(s.kernel, fd) && exists i :: InFired(s, fd, i))
    && !(IsArmed(s.kernel, fd) && exists w :: HeldBy(s, fd, w))
    && !((exists i :: InFired(s, fd, i)) && (exists w :: HeldBy(s, fd, w)))
    && (forall i, j :: InFired(s, fd, i) && InFired(s, fd, j) ==> i == j)
    && (forall w, v :: HeldBy(s, fd, w) && HeldBy(s, fd, v) ==> w == v)
  }

  /** Where a descriptor is. */
  datatype FdPlace = Waiting | Fired(index: nat) | Held(worker: Worker)

  type Fds = map<Fd, FdPlace>

  ghost predicate FdAt(fp: Fds, fd: Fd, place: FdPlace) {
    fd in fp && fp[fd] == place
  }

  ghost predicate LinkedTo(k: map<Fd, Interest>, conns: map<Fd, Conn>, fd: Fd, c: Conn) {
    Registered(k, fd) && fd in conns && conns[fd] == c
  }

  /** The table entries and registrations of the descriptors a worker holds. */
  ghost predicate PcOk(k: map<Fd, Interest>, conns: map<Fd, Conn>, p: Pc) {
    match p
    case Taken(fd) => Registered(k, fd) && fd in conns
    case Bug(_) => false
    case Run(_, fd, c) => LinkedTo(k, conns, fd, c)
    case Register(reg, fd, c, sfd) =>
      && LinkedTo(k, conns, fd, c) && !Registered(k, sfd)
      && (if reg.Adding? || reg.AddFailed? then sfd in conns && conns[sfd] == reg.nc else sfd !in conns)
    case Close(_, fd, _) => fd !in conns
    case _ => true
  }

  ghost predicate KernelInv(k: map<Fd, Interest>, conns: map<Fd, Conn>, fp: Fds) {
    && (forall fd :: fd in fp <==> fd in k)
    && (forall fd :: fd in conns ==> fd in k)
    && (forall fd :: fd in fp ==> (fp[fd].Waiting? <==> k[fd].Armed?))
    && (forall fd :: fd in fp && !fp[fd].Held? ==> !k[fd].Unregistered? && fd in conns)
  }

  ghost predicate FiredInv(q: Queue, fp: Fds) {
    && q.nready <= |q.fired| == AE_SETSIZE
    && (forall i :: 0 <= i < q.nready ==> FdAt(fp, q.fired[i], Fired(i)))
    && (forall fd, i: nat :: FdAt(fp, fd, Fired(i)) ==> i < q.nready && q.fired[i] == fd)
  }

  ghost predicate HeldInv(pc: map<Worker, Pc>, fp: Fds) {
    && (forall w, fd :: w in pc && Holds(pc[w], fd) ==> FdAt(fp, fd, Held(w)))
    && (forall fd, w :: FdAt(fp, fd, Held(w)) ==> w in pc && Holds(pc[w], fd))
  }

  ghost predicate LeaderInv(leader: set<Worker>, pc: map<Worker, Pc>) {
    && (forall w :: w in pc ==> (w in leader <==> pc[w].Leading? || pc[w].Taken? || pc[w].Bug?))
    && (forall w, v :: w in leader && v in leader ==> w == v)
    && (forall w :: w in leader ==> w in pc)
  }

  ghost predicate FdInv(s: State, fp: Fds) {
    && KernelInv(s.kernel, s.conns, fp) && FiredInv(s.queue, fp) && HeldInv(s.pc, fp)
    && LeaderInv(s.queue.leader, s.pc)
    && (forall w :: w in s.pc ==> PcOk(s.kernel, s.conns, s.pc[w]))
  }

  ghost function LoopFds(s: State, w: Worker, p: Pc, a: LoopAct, fp: Fds): Fds
    requires LoopEnabled(s, p, a)
  {
    match a
    case Poll(events) =>
      map fd | fd in fp ::
        if fd in events then (var i :| 0 <= i < |events| && events[i] == fd; Fired(i)) else fp[fd]
    case Take => fp[s.queue.fired[s.queue.nready - 1] := Held(w)]
    case _ => fp
  }

  ghost function RegFds(s: State, w: Worker, p: Pc, a: RegAct, fp: Fds): Fds
    requires RegEnabled(s, p, a)
  {
    match a
    case Accept(newFd) => fp[newFd := Held(w)]
    case EpollAdd(ok) => if ok then fp[p.sfd := Waiting] else fp
    case CloseNew => fp - {p.sfd}
    case _ => fp
  }

  ghost function EndFds(s: State, w: Worker, p: Pc, a: EndAct, fp: Fds): Fds
    requires EndEnabled(s, p, a)
  {
    match a
    case EpollMod(ok) => if ok then fp[p.fd := Waiting] else fp
    case CloseFd => fp - {p.fd}
    case _ => fp
  }


  /** The maps agree except at `x`. */
  ghost predicate Same<V>(m: map<Fd, V>, m': map<Fd, V>, x: Fd) {
    forall fd :: fd != x ==> (fd in m <==> fd in m') && (fd in m ==> m[fd] == m'[fd])
  }

  /** The other workers' descriptors are not `x`, so nothing changes for them. */
  lemma OthersOk(s: State, s': State, w: Worker, x: Fd, fp: Fds)
    requires HeldInv(s.pc, fp) && (forall v :: v in s.pc ==> PcOk(s.kernel, s.conns, s.pc[v]))
    requires Same(s.kernel, s'.kernel, x) && Same(s.conns, s'.conns, x)
    requires x in fp ==> fp[x] == Held(w)
    ensures forall v :: v in s.pc && v != w ==> PcOk(s'.kernel, s'.conns, s.pc[v])
  {
    forall v | v in s.pc && v != w ensures PcOk(s'.kernel, s'.conns, s.pc[v]) {
      assert !Holds(s.pc[v], x);
    }
  }

  /** Worker `w` goes to `p'` with a change of hands at most of `x`. */
  lemma HeldFrame(pc: map<Worker, Pc>, w: Worker, p': Pc, x: Fd, fp: Fds, fp': Fds)
    requires HeldInv(pc, fp) && w in pc && Same(fp, fp', x)
    requires x in fp ==> !fp[x].Held? || fp[x] == Held(w)
    requires x in fp' ==> !fp'[x].Held? || fp'[x] == Held(w)
    requires forall fd :: Holds(p', fd) <==> (if fd == x then FdAt(fp', x, Held(w)) else Holds(pc[w], fd))
    ensures HeldInv(pc[w := p'], fp')
  {
    forall fd, place | fd != x ensures FdAt(fp', fd, place) <==> FdAt(fp, fd, place) { }
    forall v, fd | v in pc[w := p'] && Holds(pc[w := p'][v], fd) ensures FdAt(fp', fd, Held(v)) {
      if v != w { assert FdAt(fp, fd, Held(v)); }
    }
  }

  /** Worker `w` moves to `p'` and touches no descriptor but `x`, which it holds or has just received. */
  lemma FdFrame(s: State, s': State, w: Worker, p': Pc, x: Fd, fp: Fds, fp': Fds)
    requires FdInv(s, fp) && w in s.pc
    requires s'.pc == s.pc[w := p'] && s'.queue == s.queue
    requires !(s.pc[w].Leading? || s.pc[w].Taken? || s.pc[w].Bug? || p'.Leading? || p'.Taken? || p'.Bug?)
    requires Same(s.kernel, s'.kernel, x) && Same(s.conns, s'.conns, x) && Same(fp, fp', x)
    requires x in fp ==> fp[x] == Held(w)
    requires x in fp' ==> fp'[x] == Held(w) || fp'[x] == Waiting
    requires x in fp' <==> x in s'.kernel
    requires x in s'.conns ==> x in s'.kernel
    requires x in fp' ==> (fp'[x] == Waiting <==> s'.kernel[x].Armed?)
    requires x in fp' && fp'[x] == Waiting ==> x in s'.conns
    requires forall fd :: Holds(p', fd) <==> (if fd == x then FdAt(fp', x, Held(w)) else Holds(s.pc[w], fd))
    requires PcOk(s'.kernel, s'.conns, p')
    ensures FdInv(s', fp')
  {
    OthersOk(s, s', w, x, fp);
    HeldFrame(s.pc, w, p', x, fp, fp');
    forall fd, place | fd != x ensures FdAt(fp', fd, place) <==> FdAt(fp, fd, place) { }
  }

  lemma RegKeepsFdInv(s: State, w: Worker, p: Pc, a: RegAct, s': State, fp: Fds, fp': Fds)
    requires FdInv(s, fp) && w in s.pc && p == s.pc[w] && RegEnabled(s, p, a)
    requires s' == RegNext(s, w, p, a) && fp' == RegFds(s, w, p, a, fp)
    ensures FdInv(s', fp')
  {
    assert PcOk(s.kernel, s.conns, p);
    assert forall fd :: Holds(p, fd) ==> FdAt(fp, fd, Held(w));
    if a.Accept? {
      FdFrame(s, s', w, s'.pc[w], a.newFd, fp, fp');
    } else {
      assert Holds(p, p.sfd) && Holds(p, p.fd);
      FdFrame(s, s', w, s'.pc[w], p.sfd, fp, fp');
    }
  }

  lemma EndKeepsFdInv(s: State, w: Worker, p: Pc, a: EndAct, s': State, fp: Fds, fp': Fds)
    requires FdInv(s, fp) && w in s.pc && p == s.pc[w] && EndEnabled(s, p, a)
    requires p.Run? || p.Close? ==> p.c in s.heap.sfd && s.heap.sfd[p.c] == p.fd < AE_SETSIZE
    requires s' == EndNext(s, w, p, a) && fp' == EndFds(s, w, p, a, fp)
    ensures FdInv(s', fp')
  {
    assert PcOk(s.kernel, s.conns, p);
    assert forall fd :: Holds(p, fd) ==> FdAt(fp, fd, Held(w));
    if !a.Release? {
      assert Holds(p, p.fd);
      FdFrame(s, s', w, s'.pc[w], p.fd, fp, fp');
    }
  }

  lemma PollKeepsFdInv(s: State, w: Worker, a: LoopAct, s': State, fp: Fds, fp': Fds)
    requires FdInv(s, fp) && w in s.pc && a.Poll? && LoopEnabled(s, s.pc[w], a)
    requires s' == LoopNext(s, w, s.pc[w], a) && fp' == LoopFds(s, w, s.pc[w], a, fp)
    ensures FdInv(s', fp')
  {
    forall fd, v ensures FdAt(fp', fd, Held(v)) <==> FdAt(fp, fd, Held(v)) { }
    forall fd, i: nat | FdAt(fp', fd, Fired(i)) ensures i < |a.events| && a.events[i] == fd {
      if fd !in a.events { assert FdAt(fp, fd, Fired(i)); }
    }
    assert forall fd :: Registered(s.kernel, fd) <==> Registered(s'.kernel, fd);
  }

  lemma LoopKeepsFdInv(s: State, w: Worker, p: Pc, a: LoopAct, s': State, fp: Fds, fp': Fds)
    requires FdInv(s, fp) && w in s.pc && p == s.pc[w] && LoopEnabled(s, p, a)
    requires s' == LoopNext(s, w, p, a) && fp' == LoopFds(s, w, p, a, fp)
    ensures FdInv(s', fp')
  {
    assert PcOk(s.kernel, s.conns, p);
    if a.Poll? {
      PollKeepsFdInv(s, w, a, s', fp, fp');
    } else if a.Take? {
      var fd := s.queue.fired[s.queue.nready - 1];
      HeldFrame(s.pc, w, Taken(fd), fd, fp, fp');
      forall f, i: nat ensures FdAt(fp', f, Fired(i)) <==> f != fd && FdAt(fp, f, Fired(i)) { }
    }
  }

  // ----------------------------------------------------------------- ownership of connection structures

  /** Where an allocated connection structure is. */
  datatype ConnPlace = Attached(fd: Fd) | InHand(worker: Worker) | Spare(index: nat)

  type Conns = map<Conn, ConnPlace>

  ghost predicate ConnAt(cp: Conns, c: Conn, place: ConnPlace) {
    c in cp && cp[c] == place
  }

  /** Connection structure `c` can be reached from worker program point `p` only. */
  ghost predicate HasConn(p: Pc, c: Conn) {
    match p
    case Register(reg, _, _, _) => (reg.Attaching? || reg.Rejected?) && c == reg.nc
    case Close(_, _, k) => c == k
    case Shut(k) => c == k
    case _ => false
  }

  ghost predicate AttachedInv(conns: map<Fd, Conn>, sfd: map<Conn, Fd>, cp: Conns) {
    && (forall c :: c in cp <==> c in sfd)
    && (forall fd :: fd in conns ==> fd < AE_SETSIZE && ConnAt(cp, conns[fd], Attached(fd)) && sfd[conns[fd]] == fd)
    && (forall c, fd :: ConnAt(cp, c, Attached(fd)) ==> fd in conns && conns[fd] == c)
  }

  ghost predicate SpareInv(freelist: seq<Conn>, cp: Conns) {
    && (forall i :: 0 <= i < |freelist| ==> ConnAt(cp, freelist[i], Spare(i)))
    && (forall c, i: nat :: ConnAt(cp, c, Spare(i)) ==> i < |freelist| && freelist[i] == c)
  }

  ghost predicate HandInv(pc: map<Worker, Pc>, cp: Conns) {
    && (forall w, c :: w in pc && HasConn(pc[w], c) ==> ConnAt(cp, c, InHand(w)))
    && (forall c, w :: ConnAt(cp, c, InHand(w)) ==> w in pc && HasConn(pc[w], c))
  }

  /** The structures a worker has in hand still name the descriptor it works on. */
  ghost predicate SfdOk(sfd: map<Conn, Fd>, p: Pc) {
    match p
    case Register(reg, _, _, fd) => reg.Attaching? ==> reg.nc in sfd && sfd[reg.nc] == fd
    case Close(_, fd, c) => c in sfd && sfd[c] == fd < AE_SETSIZE
    case _ => true
  }

  ghost predicate ConnInv(s: State, cp: Conns) {
    && AttachedInv(s.conns, s.heap.sfd, cp) && SpareInv(s.heap.freelist, cp) && HandInv(s.pc, cp)
    && (forall w :: w in s.pc ==> SfdOk(s.heap.sfd, s.pc[w]))
  }

  ghost function Recycled(h: Heap, c: Conn, keep: bool, cp: Conns): Conns {
    if keep then cp[c := Spare(|h.freelist|)] else cp - {c}
  }

  lemma RecycleKeeps(conns: map<Fd, Conn>, h: Heap, h': Heap, c: Conn, w: Worker, keep: bool, cp: Conns, cp': Conns)
    requires AttachedInv(conns, h.sfd, cp) && SpareInv(h.freelist, cp) && ConnAt(cp, c, InHand(w))
    requires h' == RecycleConn(h, c, keep) && cp' == Recycled(h, c, keep, cp)
    ensures AttachedInv(conns, h'.sfd, cp') && SpareInv(h'.freelist, cp')
  {
    forall k, place | k != c ensures ConnAt(cp', k, place) <==> ConnAt(cp, k, place) { }
  }

  ghost function RegConns(s: State, w: Worker, p: Pc, a: RegAct, cp: Conns): Conns
    requires RegEnabled(s, p, a)
  {
    match a
    case NewFromFreelist => cp[s.heap.freelist[|s.heap.freelist| - 1] := InHand(w)]
    case NewFromHeap(c) => cp[c := InHand(w)]
    case StoreNew => if p.sfd >= AE_SETSIZE then cp else cp[p.reg.nc := Attached(p.sfd)]
    case UnstoreNew => cp[p.reg.nc := InHand(w)]
    case Recycle(keep) => Recycled(s.heap, p.reg.nc, keep, cp)
    case _ => cp
  }

  ghost function EndConns(s: State, w: Worker, p: Pc, a: EndAct, cp: Conns): Conns
    requires EndEnabled(s, p, a)
  {
    match a
    case Unrestore => cp[p.c := InHand(w)]
    case Unlink => cp[p.c := InHand(w)]
    case Release(keep) => Recycled(s.heap, p.c, keep, cp)
    case _ => cp
  }

  /** Worker `w` moves to `p'`; of the structures only `c` moves, and `c` is or was free or in hand. */
  lemma ConnFrame(s: State, s': State, w: Worker, p': Pc, c: Conn, cp: Conns, cp': Conns)
    requires ConnInv(s, cp) && w in s.pc && s'.pc == s.pc[w := p']
    requires Same(cp, cp', c) && Same(s.heap.sfd, s'.heap.sfd, c)
    requires c in cp' <==> c in s'.heap.sfd
    requires c in cp && cp[c].InHand? ==> cp[c] == InHand(w)
    requires c in cp' && cp'[c].InHand? ==> cp'[c] == InHand(w)
    requires forall k :: HasConn(p', k) <==> (if k == c then ConnAt(cp', c, InHand(w)) else HasConn(s.pc[w], k))
    requires SfdOk(s'.heap.sfd, p')
    requires AttachedInv(s'.conns, s'.heap.sfd, cp') && SpareInv(s'.heap.freelist, cp')
    ensures ConnInv(s', cp')
  {
    forall k, place | k != c ensures ConnAt(cp', k, place) <==> ConnAt(cp, k, place) { }
    forall v | v in s.pc && v != w ensures SfdOk(s'.heap.sfd, s.pc[v]) {
      assert !HasConn(s.pc[v], c);
      assert SfdOk(s.heap.sfd, s.pc[v]);
    }
    forall v, k | v in s'.pc && HasConn(s'.pc[v], k) ensures ConnAt(cp', k, InHand(v)) {
      if v != w { assert ConnAt(cp, k, InHand(v)); }
    }
  }

  lemma AllocKeepsConnInv(s: State, w: Worker, p: Pc, a: RegAct, s': State, cp: Conns, cp': Conns)
    requires ConnInv(s, cp) && w in s.pc && p == s.pc[w] && RegEnabled(s, p, a)
    requires a.NewFromFreelist? || a.NewFromHeap?
    requires s' == RegNext(s, w, p, a) && cp' == RegConns(s, w, p, a, cp)
    ensures ConnInv(s', cp')
  {
    var c := if a.NewFromHeap? then a.newConn else s.heap.freelist[|s.heap.freelist| - 1];
    if a.NewFromFreelist? {
      assert ConnAt(cp, c, Spare(|s.heap.freelist| - 1));
    }
    forall k, place | k != c ensures ConnAt(cp', k, place) <==> ConnAt(cp, k, place) { }
    ConnFrame(s, s', w, s'.pc[w], c, cp, cp');
  }

  lemma RegKeepsConnInv(s: State, w: Worker, p: Pc, a: RegAct, s': State, cp: Conns, cp': Conns)
    requires ConnInv(s, cp) && w in s.pc && p == s.pc[w] && RegEnabled(s, p, a) && PcOk(s.kernel, s.conns, p)
    requires !(a.NewFromFreelist? || a.NewFromHeap?)
    requires s' == RegNext(s, w, p, a) && cp' == RegConns(s, w, p, a, cp)
    ensures ConnInv(s', cp')
  {
    var c := if a.Accept? || a.CloseNew? then p.c else p.reg.nc;
    if a.Accept? || a.CloseNew? {
      assert ConnAt(cp, c, Attached(p.fd));
    } else if a.EpollAdd? || a.UnstoreNew? {
      assert ConnAt(cp, c, Attached(p.sfd));
    } else {
      assert HasConn(p, c) && ConnAt(cp, c, InHand(w));
      if a.Recycle? { RecycleKeeps(s.conns, s.heap, s'.heap, c, w, a.keep, cp, cp'); }
    }
    forall k, place | k != c ensures ConnAt(cp', k, place) <==> ConnAt(cp, k, place) { }
    ConnFrame(s, s', w, s'.pc[w], c, cp, cp');
  }

  lemma EndKeepsConnInv(s: State, w: Worker, p: Pc, a: EndAct, s': State, cp: Conns, cp': Conns)
    requires ConnInv(s, cp) && w in s.pc && p == s.pc[w] && EndEnabled(s, p, a) && PcOk(s.kernel, s.conns, p)
    requires s' == EndNext(s, w, p, a) && cp' == EndConns(s, w, p, a, cp)
    ensures ConnInv(s', cp')
  {
    if p.Run? {
      assert ConnAt(cp, p.c, Attached(p.fd));
    } else {
      assert HasConn(p, p.c) && ConnAt(cp, p.c, InHand(w));
      if a.Release? { RecycleKeeps(s.conns, s.heap, s'.heap, p.c, w, a.keep, cp, cp'); }
    }
    forall k, place | k != p.c ensures ConnAt(cp', k, place) <==> ConnAt(cp, k, place) { }
    ConnFrame(s, s', w, s'.pc[w], p.c, cp, cp');
  }

  // ----------------------------------------------------------------- every run

  ghost predicate Inv(s: State) {
    exists fp, cp :: FdInv(s, fp) && ConnInv(s, cp)
  }

  lemma InitInv(s: State)
    requires Init(s)
    ensures Inv(s)
  {
    var fp: Fds := map fd | fd in s.kernel :: Waiting;
    var cp: Conns := map c | c in s.heap.sfd :: Attached(s.heap.sfd[c]);
    assert FdInv(s, fp) && ConnInv(s, cp);
  }

  lemma LoopKeepsConnInv(s: State, w: Worker, a: LoopAct, s': State, cp: Conns)
    requires ConnInv(s, cp) && w in s.pc && LoopEnabled(s, s.pc[w], a) && !s.pc[w].Bug?
    requires s' == LoopNext(s, w, s.pc[w], a)
    ensures ConnInv(s', cp)
  {
  }

  lemma StepKeeps(s: State, w: Worker, a: Action, s': State, fp: Fds, cp: Conns) returns (fp': Fds, cp': Conns)
    requires FdInv(s, fp) && ConnInv(s, cp) && Moves(s, w, a, s') && PcOk(s.kernel, s.conns, s.pc[w])
    ensures FdInv(s', fp') && ConnInv(s', cp')
  {
    var p := s.pc[w];
    match a {
      case Loop(l) =>
        fp', cp' := LoopFds(s, w, p, l, fp), cp;
        LoopKeepsFdInv(s, w, p, l, s', fp, fp');
        LoopKeepsConnInv(s, w, l, s', cp);
      case Reg(r) =>
        fp', cp' := RegFds(s, w, p, r, fp), RegConns(s, w, p, r, cp);
        RegKeepsFdInv(s, w, p, r, s', fp, fp');
        if r.NewFromFreelist? || r.NewFromHeap? {
          AllocKeepsConnInv(s, w, p, r, s', cp, cp');
        } else {
          RegKeepsConnInv(s, w, p, r, s', cp, cp');
        }
      case End(e) =>
        fp', cp' := EndFds(s, w, p, e, fp), EndConns(s, w, p, e, cp);
        EndKeepsFdInv(s, w, p, e, s', fp, fp');
        EndKeepsConnInv(s, w, p, e, s', cp, cp');
    }
  }

  lemma StepInv(s: State, s': State)
    requires Inv(s) && Step(s, s')
    ensures Inv(s')
  {
    var fp, cp :| FdInv(s, fp) && ConnInv(s, cp);
    var w, a :| Moves(s, w, a, s');
    var fp', cp' := StepKeeps(s, w, a, s', fp, cp);
  }

  lemma {:induction false} BehaviourInv(run: seq<State>, n: nat)
    requires Behaviour(run) && n < |run|
    ensures Inv(run[n])
  {
    if n == 0 {
      InitInv(run[0]);
    } else {
      BehaviourInv(run, n - 1);
      StepInv(run[n - 1], run[n]);
    }
  }

  /** In every state of every run each open descriptor has exactly one owner: it is armed, it sits in
      one slot of fired[..nready], or one worker has it in hand -- and nothing else is in those places. */
  lemma EveryDescriptorOwnedOnce(run: seq<State>, n: nat)
    requires Behaviour(run) && n < |run|
    ensures forall fd :: fd in run[n].kernel ==> OwnedOnce(run[n], fd)
    ensures forall fd, i :: InFired(run[n], fd, i) ==> fd in run[n].kernel
    ensures forall fd, w :: HeldBy(run[n], fd, w) ==> fd in run[n].kernel
  {
    BehaviourInv(run, n);
    var s := run[n];
    var fp, cp :| FdInv(s, fp) && ConnInv(s, cp);
    forall fd | fd in s.kernel ensures OwnedOnce(s, fd) {
      match fp[fd] {
        case Waiting =>
        case Fired(i) => assert FdAt(fp, fd, Fired(i)) && InFired(s, fd, i);
        case Held(w) => assert FdAt(fp, fd, Held(w)) && HeldBy(s, fd, w);
      }
    }
    forall fd, i | InFired(s, fd, i) ensures fd in s.kernel { assert FdAt(fp, fd, Fired(i)); }
    forall fd, w | HeldBy(s, fd, w) ensures fd in s.kernel { assert FdAt(fp, fd, Held(w)); }
  }

  /** Worker program point `p` may touch connection structure `c`: the one it drives or the one it registers. */
  ghost predicate Drives(p: Pc, c: Conn) {
    || ((p.Run? || p.Register? || p.Close? || p.Shut?) && p.c == c)
    || (p.Register? && !p.reg.Accepted? && !p.reg.Dropping? && p.reg.nc == c)
  }

  /** A structure that worker `w` touches is in its hands, or belongs to a descriptor that is. */
  lemma TouchedByHolder(s: State, fp: Fds, cp: Conns, w: Worker, c: Conn)
    requires FdInv(s, fp) && ConnInv(s, cp) && w in s.pc && Drives(s.pc[w], c)
    ensures ConnAt(cp, c, InHand(w)) || exists fd :: ConnAt(cp, c, Attached(fd)) && FdAt(fp, fd, Held(w))
  {
    var p := s.pc[w];
    assert PcOk(s.kernel, s.conns, p);
    if p.Close? || p.Shut? || HasConn(p, c) {
      assert HasConn(p, c);
    } else if p.c == c {
      assert Holds(p, p.fd) && FdAt(fp, p.fd, Held(w)) && ConnAt(cp, c, Attached(p.fd));
    } else {
      assert Holds(p, p.sfd) && FdAt(fp, p.sfd, Held(w)) && ConnAt(cp, c, Attached(p.sfd));
    }
  }

  /** In every state of every run no connection structure, on the free list or not, is touched by two workers. */
  lemma NoConnDrivenTwice(run: seq<State>, n: nat, w: Worker, v: Worker, c: Conn)
    requires Behaviour(run) && n < |run|
    requires w in run[n].pc && v in run[n].pc && Drives(run[n].pc[w], c) && Drives(run[n].pc[v], c)
    ensures w == v && c !in run[n].heap.freelist
  {
    BehaviourInv(run, n);
    var s := run[n];
    var fp, cp :| FdInv(s, fp) && ConnInv(s, cp);
    TouchedByHolder(s, fp, cp, w, c);
    TouchedByHolder(s, fp, cp, v, c);
  }

  /** The "Bug: conn should not be NULL" branch is never taken, the assertion of add_event holds whenever
      it is evaluated, EPOLL_CTL_ADD never meets a registered descriptor, EPOLL_CTL_MOD never an
      unregistered one, and the descriptor a worker closes is the one it was woken for. */
  lemma NoBugBranch(run: seq<State>, n: nat, w: Worker)
    requires Behaviour(run) && n < |run| && w in run[n].pc
    ensures var s, p := run[n], run[n].pc[w];
            && !p.Bug?
            && (p.Register? && p.reg.Attaching? ==> p.sfd !in s.conns)
            && (p.Register? && p.reg.Adding? ==> !Registered(s.kernel, p.sfd))
            && (p.Run? && p.run.Restored? ==> Registered(s.kernel, p.fd))
            && (p.Close? ==> p.c in s.heap.sfd && s.heap.sfd[p.c] == p.fd)
  {
    BehaviourInv(run, n);
    var s := run[n];
    var fp, cp :| FdInv(s, fp) && ConnInv(s, cp);
    assert PcOk(s.kernel, s.conns, s.pc[w]) && SfdOk(s.heap.sfd, s.pc[w]);
  }

  /** The leader mutex is held by at most one worker, and only that worker reads or writes `fired`. */
  lemma OneLeader(run: seq<State>, n: nat, w: Worker, v: Worker)
    requires Behaviour(run) && n < |run| && w in run[n].pc && v in run[n].pc
    requires run[n].pc[w].Leading? || run[n].pc[w].Taken?
    requires run[n].pc[v].Leading? || run[n].pc[v].Taken?
    ensures w == v
  {
    BehaviourInv(run, n);
    var fp, cp :| FdInv(run[n], fp) && ConnInv(run[n], cp);
  }

  /** The worker can go on with its work. */
  ghost predicate CanMove(s: State, w: Worker) {
    exists a, s' :: a != Loop(Quit) && Moves(s, w, a, s')
  }

  /** What a worker that is not waiting for the mutex does next. */
  ghost function NextAct(s: State, p: Pc): Action {
    match p
    case Idle => Loop(Lock)
    case Leading => if s.queue.nready == 0 then Loop(Poll([])) else Loop(Take)
    case Taken(_) => Loop(Lookup)
    case Bug(_) => Loop(BugClose)
    case Run(Driving, _, _) => End(Restore)
    case Run(Restored, _, _) => End(EpollMod(false))
    case Run(ModFailed, _, _) => End(Unrestore)
    case Register(Attaching(_), _, _, _) => Reg(StoreNew)
    case Register(Adding(_), _, _, _) => Reg(EpollAdd(true))
    case Register(AddFailed(_), _, _, _) => Reg(UnstoreNew)
    case Register(Rejected(_), _, _, _) => Reg(Recycle(true))
    case Register(_, _, _, _) => Reg(CloseNew)
    case Close(Entered, _, _) => End(Unlink)
    case Close(Unlinked, _, _) => End(EpollDel(true))
    case Close(Deregistered, _, _) => End(CloseFd)
    case Shut(_) => End(Release(true))
    case Exited => Loop(Quit)
  }

  lemma WorkerMoves(s: State, w: Worker)
    requires Inv(s) && w in s.pc && !s.pc[w].Exited? && (s.pc[w].Idle? ==> s.queue.leader == {})
    ensures CanMove(s, w)
  {
    var fp, cp :| FdInv(s, fp) && ConnInv(s, cp);
    var p := s.pc[w];
    assert PcOk(s.kernel, s.conns, p) && SfdOk(s.heap.sfd, p);
    var a := NextAct(s, p);
    match a {
      case Loop(l) => assert Moves(s, w, a, LoopNext(s, w, p, l));
      case Reg(r) => assert Moves(s, w, a, RegNext(s, w, p, r));
      case End(e) => assert Moves(s, w, a, EndNext(s, w, p, e));
    }
  }

  /** In no state of any run is a worker stuck: it can go on, or it waits for the mutex and the one who has that can. */
  lemma NoWorkerStuck(run: seq<State>, n: nat, w: Worker)
    requires Behaviour(run) && n < |run| && w in run[n].pc && !run[n].pc[w].Exited?
    ensures CanMove(run[n], w) || (run[n].pc[w].Idle? && exists v :: v in run[n].queue.leader && CanMove(run[n], v))
  {
    BehaviourInv(run, n);
    var s := run[n];
    if s.pc[w].Idle? && s.queue.leader != {} {
      var v :| v in s.queue.leader;
      LeaderWorks(s, v);
      WorkerMoves(s, v);
    } else {
      WorkerMoves(s, w);
    }
  }

  lemma LeaderWorks(s: State, v: Worker)
    requires Inv(s) && v in s.queue.leader
    ensures v in s.pc && !s.pc[v].Idle? && !s.pc[v].Exited?
  {
    var fp, cp :| FdInv(s, fp) && ConnInv(s, cp);
  }

  /** A worker leaves only where it tests daemon_quit: before it takes the mutex, or as the leader. */
  lemma ExitsAtTests(s: State, s': State, w: Worker)
    requires Step(s, s') && w in s.pc && !s.pc[w].Exited? && w in s'.pc && s'.pc[w].Exited?
    ensures s.pc[w].Idle? || s.pc[w].Leading?
  {
    var v, a :| Moves(s, v, a, s');
  }
}
