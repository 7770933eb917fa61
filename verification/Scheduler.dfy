/** The task scheduler of FastDFS/common/sched_thread.c.

    The ScheduleEntry structures sit in one array; a pointer to one is its index, NIL the null pointer.
    The `next` fields are kept in a sequence of their own, beside the rest of the structures.
    `qsort` is a parameter that may return any sorted rearrangement. */
module Scheduler {

  const NIL: int := -1

  datatype Entry = Entry(id: int, interval: int, nextCall: int)

  // ----------------------------------------------------------------- linked lists of slots

  ghost predicate NoDup(L: seq<nat>) {
    forall i, j :: 0 <= i < j < |L| ==> L[i] != L[j]
  }

  ghost predicate Within(L: seq<nat>, n: nat) {
    forall i :: 0 <= i < |L| ==> L[i] < n
  }

  /** What follows position `i` of the list. */
  ghost function After(L: seq<nat>, i: int): int
    requires -1 <= i < |L|
  {
    if i + 1 < |L| then L[i + 1] else NIL
  }

  /** Following `next` from L[0] visits L and ends with NIL. */
  ghost predicate Linked(next: seq<int>, L: seq<nat>) {
    L != [] && NoDup(L) && Within(L, |next|) && forall i :: 0 <= i < |L| ==> next[L[i]] == After(L, i)
  }

  ghost predicate Sorted(es: seq<Entry>, L: seq<nat>) {
    Within(L, |es|) && forall i, j :: 0 <= i < j < |L| ==> es[L[i]].nextCall <= es[L[j]].nextCall
  }

  ghost function Inserted(L: seq<nat>, k: nat, x: nat): seq<nat>
    requires k <= |L|
  {
    L[..k] + [x] + L[k..]
  }

  /** `x` may stand at position `k` of the sorted list. */
  ghost predicate FitsAt(es: seq<Entry>, L: seq<nat>, k: nat, x: nat)
    requires x < |es| && Within(L, |es|)
  {
    && k <= |L|
    && (forall i :: 0 <= i < k ==> es[L[i]].nextCall <= es[x].nextCall)
    && (forall i :: k <= i < |L| ==> es[x].nextCall <= es[L[i]].nextCall)
  }

  /** The links after `x` has been put before position `k`. */
  ghost function LinkedIn(next: seq<int>, L: seq<nat>, k: nat, x: nat): seq<int>
    requires Within(L, |next|) && k <= |L| && x < |next|
  {
    (if k == 0 then next else next[L[k - 1] := x])[x := After(L, k - 1)]
  }

  lemma InsertedOk(L: seq<nat>, k: nat, x: nat, n: nat)
    requires NoDup(L) && Within(L, n) && k <= |L| && x < n && x !in L
    ensures NoDup(Inserted(L, k, x)) && Within(Inserted(L, k, x), n)
    ensures forall y :: y in Inserted(L, k, x) <==> y == x || y in L
  {
    assert L == L[..k] + L[k..];
  }

  lemma LinkInsert(next: seq<int>, L: seq<nat>, k: nat, x: nat)
    requires Linked(next, L) && k <= |L| && x < |next| && x !in L
    ensures Linked(LinkedIn(next, L, k, x), Inserted(L, k, x))
  {
    var next', M := LinkedIn(next, L, k, x), Inserted(L, k, x);
    assert M != [] && |next'| == |next|;
    InsertedOk(L, k, x, |next|);
    hide NoDup, Within, LinkedIn, Inserted;
    forall i | 0 <= i < |M| ensures next'[M[i]] == After(M, i) {
      LinkInsertAt(next, L, k, x, i);
    }
  }

  lemma LinkInsertAt(next: seq<int>, L: seq<nat>, k: nat, x: nat, i: nat)
    requires Linked(next, L) && k <= |L| && x < |next| && x !in L && i <= |L|
    ensures var next', M := LinkedIn(next, L, k, x), Inserted(L, k, x);
            |M| == |L| + 1 && M[i] < |next'| && next'[M[i]] == After(M, i)
  {
    InsertedAt(L, k, x, i);
    if i < |L| { InsertedAt(L, k, x, i + 1); }
    hide Inserted;
    if i < k {
      assert next[L[i]] == After(L, i) && (i != k - 1 ==> L[i] != L[k - 1]);
    } else if i > k {
      assert next[L[i - 1]] == After(L, i - 1) && (k > 0 ==> L[i - 1] != L[k - 1]);
    }
  }

  lemma InsertedAt(L: seq<nat>, k: nat, x: nat, i: nat)
    requires k <= |L| && i <= |L|
    ensures |Inserted(L, k, x)| == |L| + 1
    ensures Inserted(L, k, x)[i] == if i < k then L[i] else if i == k then x else L[i - 1]
  {
  }

  lemma SortInsert(es: seq<Entry>, L: seq<nat>, k: nat, x: nat)
    requires Sorted(es, L) && x < |es| && FitsAt(es, L, k, x)
    ensures Sorted(es, Inserted(L, k, x))
  {
  }

  /** The first k entries of the list are earlier than `x`. */
  ghost predicate Earlier(es: seq<Entry>, L: seq<nat>, k: nat, x: nat) {
    x < |es| && Within(L, |es|) && k <= |L| && forall i :: 0 <= i < k ==> es[L[i]].nextCall <= es[x].nextCall
  }

  lemma NoneEarlier(es: seq<Entry>, L: seq<nat>, x: nat)
    requires x < |es| && Within(L, |es|)
    ensures Earlier(es, L, 0, x)
  {
  }

  lemma EarlierNext(es: seq<Entry>, L: seq<nat>, k: nat, x: nat)
    requires Earlier(es, L, k, x) && k < |L| && es[L[k]].nextCall <= es[x].nextCall
    ensures Earlier(es, L, k + 1, x)
  {
  }

  lemma LinkedAt(next: seq<int>, L: seq<nat>, k: nat)
    requires Linked(next, L) && k < |L|
    ensures next[L[k]] == After(L, k) && (After(L, k) != NIL ==> 0 <= After(L, k) < |next|)
  {
  }

  lemma FitsHere(es: seq<Entry>, L: seq<nat>, k: nat, x: nat)
    requires Sorted(es, L) && Earlier(es, L, k, x) && (k < |L| ==> es[x].nextCall <= es[L[k]].nextCall)
    ensures FitsAt(es, L, k, x)
  {
  }

  /** The search loop of the relinking: the first entry that is not earlier than `x`. */
  method FindPlace(es: seq<Entry>, next: seq<int>, head: int, x: nat, ghost L: seq<nat>)
    returns (previous: int, until: int, ghost k: nat)
    requires |es| == |next| && Linked(next, L) && Sorted(es, L) && head == L[0] && x < |es|
    ensures FitsAt(es, L, k, x)
    ensures until == After(L, k - 1) && previous == if k == 0 then NIL else L[k - 1]
  {
    previous, until, k := NIL, head, 0;
    NoneEarlier(es, L, x);
    assert L != [] && 0 <= head < |es|;
    hide Linked, Sorted, NoDup, Earlier, Within, FitsAt;
    while until != NIL && es[x].nextCall > es[until].nextCall
      invariant k <= |L| && until == After(L, k - 1) && previous == if k == 0 then NIL else L[k - 1]
      invariant until != NIL ==> 0 <= until < |es|
      invariant Earlier(es, L, k, x)
      decreases |L| - k
    {
      LinkedAt(next, L, k);
      EarlierNext(es, L, k, x);
      previous := until;
      until := next[until];
      k := k + 1;
    }
    FitsHere(es, L, k, x);
  }

  ghost function Then(P: seq<nat>, i: nat, rest: int): int
    requires i < |P|
  {
    if i + 1 < |P| then P[i + 1] else rest
  }

  /** The relinking loop: the slots of the old prefix `P` are still to be moved, hang together and lead to `rest`;
      `L` is the list built so far. */
  ghost predicate Relinking(es: seq<Entry>, next: seq<int>, P: seq<nat>, rest: int, L: seq<nat>) {
    && |es| == |next| && Linked(next, L) && Sorted(es, L)
    && NoDup(P) && Within(P, |next|)
    && (forall i :: 0 <= i < |P| ==> P[i] !in L && next[P[i]] == Then(P, i, rest))
  }

  lemma RelinkStep(es: seq<Entry>, next: seq<int>, P: seq<nat>, rest: int, L: seq<nat>, k: nat)
    requires Relinking(es, next, P, rest, L) && P != [] && FitsAt(es, L, k, P[0])
    ensures Relinking(es, LinkedIn(next, L, k, P[0]), P[1..], rest, Inserted(L, k, P[0]))
  {
    var next', Q, M := LinkedIn(next, L, k, P[0]), P[1..], Inserted(L, k, P[0]);
    LinkInsert(next, L, k, P[0]);
    SortInsert(es, L, k, P[0]);
    InsertedOk(L, k, P[0], |next|);
    forall i | 0 <= i < |Q| ensures Q[i] !in M && next'[Q[i]] == Then(Q, i, rest) {
      assert Q[i] == P[i + 1] && P[i + 1] !in L && P[i + 1] != P[0];
      assert next[P[i + 1]] == Then(P, i + 1, rest);
    }
  }

  lemma RelinkFacts(es: seq<Entry>, next: seq<int>, P: seq<nat>, rest: int, L: seq<nat>)
    requires Relinking(es, next, P, rest, L) && P != []
    ensures |es| == |next| && Linked(next, L) && Sorted(es, L) && P[0] < |es| && next[P[0]] == Then(P, 0, rest)
    ensures var tail := L[|L| - 1];
            && tail < |es| && tail != P[0]
            && (es[P[0]].nextCall >= es[tail].nextCall ==> FitsAt(es, L, |L|, P[0]))
  {
    var tail := L[|L| - 1];
    assert tail in L;
    forall i | 0 <= i < |L| ensures es[L[i]].nextCall <= es[tail].nextCall {
    }
  }

  lemma InsertedEnds(L: seq<nat>, k: nat, x: nat)
    requires k <= |L| && L != []
    ensures Inserted(L, k, x)[0] == if k == 0 then x else L[0]
    ensures Inserted(L, k, x)[|L|] == if k == |L| then x else L[|L| - 1]
  {
  }

  /** One turn of the relinking loop. */
  method RelinkOne(es: seq<Entry>, next: seq<int>, head: int, tail: int, node: int,
                   ghost P: seq<nat>, ghost rest: int, ghost L: seq<nat>)
    returns (next': seq<int>, head': int, tail': int, node': int, ghost k: nat)
    requires Relinking(es, next, P, rest, L) && P != [] && node == P[0] && head == L[0] && tail == L[|L| - 1]
    ensures k <= |L| && FitsAt(es, L, k, P[0]) && next' == LinkedIn(next, L, k, P[0])
    ensures head' == Inserted(L, k, P[0])[0] && tail' == Inserted(L, k, P[0])[|L|]
    ensures node' == Then(P, 0, rest)
  {
    next', head', tail' := next, head, tail;
    RelinkFacts(es, next, P, rest, L);
    hide Relinking, Linked, Sorted, NoDup, Inserted;
    if es[node].nextCall >= es[tail].nextCall {
      k := |L|;
      next' := next'[tail := node];
      tail' := node;
      node' := next'[node];
      next' := next'[tail' := NIL];
      InsertedEnds(L, k, P[0]);
    } else {
      var previous, until;
      previous, until, k := FindPlace(es, next, head, node, L);
      node' := next[node];
      if previous == NIL {
        head' := node;
      } else {
        next' := next'[previous := node];
      }
      next' := next'[node := until];
      InsertedEnds(L, k, P[0]);
    }
  }

  // ----------------------------------------------------------------- rounds

  /** A task has run: its next call is one interval from now. */
  function Rescheduled(e: Entry, now: int): Entry {
    e.(nextCall := now + e.interval)
  }

  /** The entries after the tasks in the slots `R` have run at time `now`. */
  ghost function Executed(es: seq<Entry>, R: seq<nat>, now: int): (r: seq<Entry>)
    ensures |r| == |es|
  {
    seq(|es|, x requires 0 <= x < |es| => if x in R then Rescheduled(es[x], now) else es[x])
  }

  ghost predicate Ascending(es: seq<Entry>) {
    forall i, j :: 0 <= i < j < |es| ==> es[i].nextCall <= es[j].nextCall
  }

  /** `sort` returns a sorted rearrangement of whatever it is given. */
  ghost predicate Sorts(sort: seq<Entry> -> seq<Entry>) {
    forall es :: multiset(sort(es)) == multiset(es) && Ascending(sort(es))
  }

  ghost predicate Positive(es: seq<Entry>) {
    forall x :: 0 <= x < |es| ==> es[x].interval > 0
  }

  lemma {:induction false} Pigeonhole(L: seq<nat>, n: nat)
    requires NoDup(L) && Within(L, n)
    ensures |L| <= n
    decreases n
  {
    if L != [] {
      assert L[0] < n;
      if k :| 0 <= k < |L| && L[k] == n - 1 {
        Pigeonhole(L[..k] + L[k + 1..], n - 1);
      } else {
        Pigeonhole(L, n - 1);
      }
    }
  }

  /** A list of as many different slots as there are has them all. */
  lemma EverySlot(L: seq<nat>, n: nat, x: nat)
    requires NoDup(L) && Within(L, n) && |L| == n && x < n
    ensures x in L
  {
    if x !in L {
      Pigeonhole(L + [x], n);
    }
  }

  lemma {:induction false} SameLength(es: seq<Entry>, fs: seq<Entry>)
    requires multiset(es) == multiset(fs)
    ensures |es| == |fs|
  {
    assert |multiset(es)| == |es| && |multiset(fs)| == |fs|;
  }

  lemma PositiveSame(es: seq<Entry>, fs: seq<Entry>)
    requires multiset(es) == multiset(fs) && Positive(es)
    ensures Positive(fs)
  {
    forall x | 0 <= x < |fs| ensures fs[x].interval > 0 {
      assert fs[x] in multiset(fs);
      assert fs[x] in es;
    }
  }

  /** The part of a linked list that starts at position `k`. */
  lemma LinkedSuffix(next: seq<int>, L: seq<nat>, k: nat)
    requires Linked(next, L) && k < |L|
    ensures Linked(next, L[k..])
  {
    forall i | 0 <= i < |L[k..]| ensures next[L[k..][i]] == After(L[k..], i) {
      assert next[L[k + i]] == After(L, k + i);
    }
  }

  lemma RestSorted(es: seq<Entry>, order: seq<nat>, n: nat, now: int)
    requires Sorted(es, order) && NoDup(order) && n <= |order|
    ensures Sorted(Executed(es, order[..n], now), order[n..])
  {
    var P, L, fs := order[..n], order[n..], Executed(es, order[..n], now);
    forall i | 0 <= i < |L| ensures L[i] < |es| && fs[L[i]] == es[order[n + i]] {
      assert L[i] !in P;
    }
  }

  /** After the tasks of a prefix of the list have run, the rest is still in order. */
  lemma StartRelinking(es: seq<Entry>, next: seq<int>, order: seq<nat>, n: nat, now: int)
    requires |es| == |next| && Linked(next, order) && Sorted(es, order) && n < |order|
    ensures Relinking(Executed(es, order[..n], now), next, order[..n], order[n], order[n..])
  {
    LinkedSuffix(next, order, n);
    RestSorted(es, order, n, now);
    PrefixApart(order, n);
    PrefixLinks(next, order, n, order[..n]);
    hide Sorted, Executed, Linked, NoDup, Within;
  }

  lemma PrefixApart(order: seq<nat>, n: nat)
    requires NoDup(order) && n < |order|
    ensures NoDup(order[..n]) && forall i :: 0 <= i < n ==> order[..n][i] !in order[n..]
  {
    forall i | 0 <= i < n ensures order[..n][i] !in order[n..] {
      forall j | 0 <= j < |order| - n ensures order[n..][j] != order[i] {
        assert order[n..][j] == order[n + j];
      }
    }
  }

  lemma PrefixLinks(next: seq<int>, order: seq<nat>, n: nat, P: seq<nat>)
    requires Linked(next, order) && n < |order| && P == order[..n]
    ensures Within(P, |next|) && forall i :: 0 <= i < n ==> next[P[i]] == Then(P, i, order[n])
  {
    hide NoDup;
    forall i | 0 <= i < n ensures P[i] < |next| && next[P[i]] == Then(P, i, order[n]) {
      assert next[order[i]] == After(order, i);
    }
  }

  lemma PositiveExecuted(es: seq<Entry>, R: seq<nat>, now: int)
    requires Positive(es)
    ensures Positive(Executed(es, R, now))
  {
  }

  ghost predicate AllDue(es: seq<Entry>, ran: seq<nat>, now: int) {
    forall i :: 0 <= i < |ran| ==> ran[i] < |es| && es[ran[i]].nextCall <= now
  }

  /** The first n tasks of the list have run: `ran`, which has brought the entries to `done`. */
  ghost predicate HaveRun(es: seq<Entry>, order: seq<nat>, n: nat, now: int, ran: seq<nat>, done: seq<Entry>) {
    n <= |order| && ran == order[..n] && done == Executed(es, ran, now) && AllDue(es, ran, now)
  }

  lemma NoneYet(es: seq<Entry>, order: seq<nat>, now: int)
    ensures HaveRun(es, order, 0, now, [], es)
  {
    assert Executed(es, [], now) == es;
  }

  lemma NextToRun(es: seq<Entry>, next: seq<int>, order: seq<nat>, n: nat, now: int, ran: seq<nat>, done: seq<Entry>)
    requires |es| == |next| && Linked(next, order) && HaveRun(es, order, n, now, ran, done)
    ensures |done| == |es| && n <= |order| && order != []
    ensures n < |order| ==> order[n] < |es| && done[order[n]] == es[order[n]] && next[order[n]] == After(order, n)
  {
    assert n < |order| ==> order[n] !in order[..n];
  }

  lemma OneMore(es: seq<Entry>, next: seq<int>, order: seq<nat>, n: nat, now: int, ran: seq<nat>, done: seq<Entry>)
    requires |es| == |next| && Linked(next, order) && HaveRun(es, order, n, now, ran, done) && n < |order|
    requires order[n] < |es| && es[order[n]].nextCall <= now
    ensures var x := order[n];
            HaveRun(es, order, n + 1, now, ran + [x], done[x := Rescheduled(es[x], now)])
  {
    assert order[n] !in order[..n];
  }

  /** One turn of the execution loop. */
  method RunOne(es: seq<Entry>, next: seq<int>, done: seq<Entry>, current: nat, now: int, ran: seq<nat>,
                ghost order: seq<nat>, ghost n: nat)
    returns (done': seq<Entry>, current': int, ran': seq<nat>)
    requires |es| == |next| && Linked(next, order) && HaveRun(es, order, n, now, ran, done)
    requires n < |order| && current == order[n] < |es| == |done| && done[current] == es[current]
    requires es[current].nextCall <= now
    ensures HaveRun(es, order, n + 1, now, ran', done') && |done'| == |es| && current' == After(order, n)
    ensures n + 1 < |order| ==> order[n + 1] < |es| && done'[order[n + 1]] == es[order[n + 1]]
  {
    hide Linked, HaveRun, Rescheduled, After;
    NextToRun(es, next, order, n, now, ran, done);
    OneMore(es, next, order, n, now, ran, done);
    ran' := ran + [current];   // pCurrent->task_func(pCurrent->func_args)
    done' := done[current := Rescheduled(done[current], now)];
    current' := next[current];
    NextToRun(es, next, order, n + 1, now, ran', done');
  }

  /** The execution loop of a round.  Test number `stop` of g_continue_flag finds it off; negative if none does. */
  method Execute(es: seq<Entry>, next: seq<int>, head: int, now: int, stop: int, ghost order: seq<nat>)
    returns (es': seq<Entry>, count: nat, current: int, ran: seq<nat>)
    requires |es| == |next| && Linked(next, order) && head == order[0]
    ensures HaveRun(es, order, count, now, ran, es') && current == After(order, count - 1)
    ensures count != stop && count < |order| ==> order[count] < |es| && now < es[order[count]].nextCall
  {
    es', current, count, ran := es, head, 0, [];
    NoneYet(es, order, now);
    hide Linked, HaveRun, Rescheduled;
    NextToRun(es, next, order, 0, now, ran, es');
    while count != stop && current != NIL && es'[current].nextCall <= now
      invariant count <= |order| && current == After(order, count - 1) && |es'| == |es|
      invariant HaveRun(es, order, count, now, ran, es')
      invariant count < |order| ==> order[count] < |es| && es'[order[count]] == es[order[count]]
      decreases |order| - count
    {
      es', current, ran := RunOne(es, next, es', current, now, ran, order, count);
      count := count + 1;
    }
  }

  /** The relinking loop. */
  method RelinkAll(es: seq<Entry>, next: seq<int>, head: int, tail: int, node: int, count: nat,
                   ghost P0: seq<nat>, ghost rest: int, ghost L0: seq<nat>)
    returns (next': seq<int>, head': int, tail': int, ghost L: seq<nat>)
    requires Relinking(es, next, P0, rest, L0) && |P0| == count && (P0 != [] ==> node == P0[0])
    requires L0 != [] && head == L0[0] && tail == L0[|L0| - 1]
    ensures |next'| == |next| && |L| == |L0| + count && Linked(next', L) && Sorted(es, L)
    ensures head' == L[0] && tail' == L[|L| - 1]
  {
    hide Linked, Sorted, NoDup, Within;
    next', head', tail', L := next, head, tail, L0;
    var pNode := node;
    ghost var P := P0;
    var i := 0;
    while i < count
      invariant i <= count && |P| == count - i && |L| == |L0| + i && L != [] && |next'| == |next|
      invariant Relinking(es, next', P, rest, L)
      invariant head' == L[0] && tail' == L[|L| - 1]
      invariant P != [] ==> pNode == P[0]
    {
      ghost var k;
      ghost var links := next';
      next', head', tail', pNode, k := RelinkOne(es, next', head', tail', pNode, P, rest, L);
      RelinkStep(es, links, P, rest, L, k);
      L, P := Inserted(L, k, P[0]), P[1..];
      i := i + 1;
    }
  }

  /** The tasks that run when nothing stops the round are exactly the ones that are due. */
  lemma DueExactly(es: seq<Entry>, order: seq<nat>, n: nat, now: int)
    requires Sorted(es, order) && NoDup(order) && |order| == |es| && n <= |order|
    requires AllDue(es, order[..n], now)
    requires n < |order| ==> now < es[order[n]].nextCall
    ensures forall x :: 0 <= x < |es| ==> (x in order[..n] <==> es[x].nextCall <= now)
  {
    forall x | 0 <= x < |es| ensures x in order[..n] <==> es[x].nextCall <= now {
      EverySlot(order, |es|, x);
      var i :| 0 <= i < |order| && order[i] == x;
      if i >= n { assert es[order[n]].nextCall <= es[order[i]].nextCall; }
    }
  }

  ghost predicate Later(es: seq<Entry>, now: int) {
    forall x :: 0 <= x < |es| ==> now < es[x].nextCall
  }

  lemma LaterExecuted(es: seq<Entry>, R: seq<nat>, now: int)
    requires Positive(es) && forall x :: 0 <= x < |es| ==> (x in R <==> es[x].nextCall <= now)
    ensures Later(Executed(es, R, now), now)
  {
  }

  lemma LaterSame(es: seq<Entry>, fs: seq<Entry>, now: int)
    requires multiset(es) == multiset(fs) && Later(es, now)
    ensures Later(fs, now)
  {
    forall x | 0 <= x < |fs| ensures now < fs[x].nextCall {
      assert fs[x] in multiset(fs);
      assert fs[x] in es;
    }
  }

  lemma PrefixNoDup(next: seq<int>, L: seq<nat>, n: nat, es: seq<Entry>, fs: seq<Entry>)
    requires Linked(next, L) && n <= |L| && Sorted(es, L) && |fs| == |es|
    ensures NoDup(L) && NoDup(L[..n]) && Within(L[..n], |es|) && (|L| == 1 ==> Sorted(fs, L))
  {
  }

  // ----------------------------------------------------------------- first call times

  const TIME_NONE := -1
  const ENOENT := 2
  const EINVAL := 22
  const DAY := 86400

  datatype TimeInfo = TimeInfo(hour: int, minute: int)

  /** C's remainder: the sign follows the dividend. */
  function CRem(a: int, b: int): int
    requires b > 0
  {
    if a >= 0 then a % b else -((-a) % b)
  }

  /** `base` stands for localtime_r and mktime: the last moment with that hour and minute. */
  function FirstCall(e: Entry, t: TimeInfo, now: int, base: TimeInfo -> int): int
    requires e.interval > 0
  {
    if t.hour == TIME_NONE then now + e.interval
    else now + e.interval - CRem(now - base(t), e.interval)
  }

  lemma SameResidue(a: int, b: int, n: int, k: int)
    requires n > 0 && a == b + k * n
    ensures a % n == b % n
  {
    var q := a / n - b / n - k;
    assert a % n - b % n + q * n == 0 by {
      assert a == a / n * n + a % n && b == b / n * n + b % n;
      assert q * n == a / n * n - b / n * n - k * n;
    }
    assert q > 0 ==> q * n >= n;
    assert q < 0 ==> q * n <= -n;
  }

  /** A time-based first call is on the grid of its base; it is within one interval from now exactly
      when the base is not in the future, or is on the grid of now. */
  lemma FirstCallWindow(e: Entry, t: TimeInfo, now: int, base: TimeInfo -> int)
    requires e.interval > 0 && t.hour != TIME_NONE
    ensures var r, b, n := FirstCall(e, t, now, base), base(t), e.interval;
            && (r - b) % n == 0
            && (now < r <= now + n <==> b <= now || (b - now) % n == 0)
  {
    var r, b, n := FirstCall(e, t, now, base), base(t), e.interval;
    var d := now - b;
    if d >= 0 {
      assert d == d / n * n + d % n;
      assert (d / n + 1) * n == d / n * n + n;
      SameResidue(r - b, 0, n, d / n + 1);
    } else {
      assert -d == -d / n * n + -d % n;
      assert (1 - -d / n) * n == n - -d / n * n;
      SameResidue(r - b, 0, n, 1 - -d / n);
    }
  }

  /** The seconds since midnight on a local clock at that offset. */
  function OfDay(moment: int, offset: int): (secs: int)
    ensures 0 <= secs < DAY
  {
    (moment + offset) % DAY
  }

  function TimeOfDay(t: TimeInfo): int {
    t.hour * 3600 + t.minute * 60
  }

  predicate Passed(secs: int, t: TimeInfo) {
    secs / 3600 > t.hour || (secs / 3600 == t.hour && secs % 3600 / 60 >= t.minute)
  }

  /** What localtime_r and mktime give: today's hour and minute if they have passed, else those of the day that it was
      24 hours ago.  `offset` and `dayOffset` are the local offsets from UTC now and then; mktime uses the one that
      localtime_r found, which it passes on in tm_isdst. */
  function LocalBase(now: int, offset: int, dayOffset: int, t: TimeInfo): int {
    if Passed(OfDay(now, offset), t) then now - OfDay(now, offset) + TimeOfDay(t)
    else now - DAY - OfDay(now - DAY, dayOffset) + TimeOfDay(t)
  }

  lemma PassedIs(secs: int, t: TimeInfo)
    requires 0 <= secs < DAY && 0 <= t.hour < 24 && 0 <= t.minute < 60
    ensures 0 <= TimeOfDay(t) < DAY && (Passed(secs, t) <==> TimeOfDay(t) <= secs)
  {
    var h, r := secs / 3600, secs % 3600;
    assert secs == h * 3600 + r && 0 <= r < 3600;
    assert r == r / 60 * 60 + r % 60;
  }

  lemma DayBefore(moment: int, offset: int)
    ensures OfDay(moment - DAY, offset) == OfDay(moment, offset)
  {
    ShiftDays(moment + offset, -1);
  }

  lemma ShiftDays(x: int, k: int)
    ensures (x + k * DAY) % DAY == x % DAY
  {
    var q, q' := x / DAY, (x + k * DAY) / DAY;
    assert x == q * DAY + x % DAY && x + k * DAY == q' * DAY + (x + k * DAY) % DAY;
  }

  /** At that time of the day a local clock shows that time. */
  lemma ClockShows(moment: int, offset: int, time: int)
    requires 0 <= time < DAY
    ensures OfDay(moment - OfDay(moment, offset) + time, offset) == time
  {
    var q := (moment + offset) / DAY;
    assert moment + offset == q * DAY + OfDay(moment, offset);
    ShiftDays(time, q);
  }

  /** Whatever the offsets, the base is never in the future, so every first call is within one interval; a local clock
      at one of them shows the wanted hour and minute; with one offset it is the last such moment. */
  lemma BaseHasPassed(now: int, offset: int, dayOffset: int, t: TimeInfo)
    requires 0 <= t.hour < 24 && 0 <= t.minute < 60
    ensures var base := LocalBase(now, offset, dayOffset, t);
            && base <= now < base + 2 * DAY
            && (dayOffset == offset ==> now < base + DAY)
            && (OfDay(base, offset) == TimeOfDay(t) || OfDay(base, dayOffset) == TimeOfDay(t))
  {
    hide OfDay, TimeOfDay, Passed;
    PassedIs(OfDay(now, offset), t);
    PassedIs(OfDay(now - DAY, dayOffset), t);
    DayBefore(now, offset);
    ClockShows(now, offset, TimeOfDay(t));
    ClockShows(now - DAY, dayOffset, TimeOfDay(t));
  }

  ghost predicate Started(es: seq<Entry>, times: seq<TimeInfo>, now: int, base: TimeInfo -> int, es': seq<Entry>,
                          n: nat)
    requires |es| == |times| == |es'| && n <= |es|
  {
    && (forall i :: 0 <= i < n ==>
          es[i].interval > 0 && es'[i] == es[i].(nextCall := FirstCall(es[i], times[i], now, base)))
    && es'[n..] == es[n..]
  }

  /** sched_init_entries: `n` is the number of entries set before it returned. */
  method InitEntries(es: seq<Entry>, times: seq<TimeInfo>, now: int, base: TimeInfo -> int)
    returns (err: int, es': seq<Entry>, ghost n: nat)
    requires |es| == |times|
    ensures |es'| == |es| && n <= |es| && Started(es, times, now, base, es', n)
    ensures err == (if es == [] then ENOENT else if n < |es| then EINVAL else 0)
    ensures n < |es| ==> es[n].interval <= 0
  {
    es' := es;
    n := 0;
    if |es| == 0 {
      return ENOENT, es', 0;
    }
    var i := 0;
    while i < |es|
      invariant i <= |es| == |es'| && n == i && Started(es, times, now, base, es', i)
    {
      assert es'[i] == es'[i..][0] == es[i..][0];
      if es'[i].interval <= 0 {
        return EINVAL, es', i;
      }
      es' := es'[i := es'[i].(nextCall := FirstCall(es'[i], times[i], now, base))];
      i := i + 1;
      n := i;
    }
    return 0, es', i;
  }

  // ----------------------------------------------------------------- rearranged entries

  /** What `f` makes of the entries, one after the other. */
  function Gather<T>(f: Entry -> seq<T>, es: seq<Entry>): seq<T> {
    if es == [] then [] else Gather(f, es[..|es| - 1]) + f(es[|es| - 1])
  }

  function Without(es: seq<Entry>, k: nat): seq<Entry>
    requires k < |es|
  {
    es[..k] + es[k + 1..]
  }

  lemma {:induction false} GatherTakeOut<T>(f: Entry -> seq<T>, es: seq<Entry>, k: nat)
    requires k < |es|
    ensures multiset(Gather(f, es)) == multiset(Gather(f, Without(es, k))) + multiset(f(es[k]))
  {
    var n := |es| - 1;
    if k == n {
      assert Without(es, k) == es[..n];
    } else {
      WithoutLast(es, k);
      hide Without;
      GatherTakeOut(f, es[..n], k);
    }
  }

  lemma WithoutLast(es: seq<Entry>, k: nat)
    requires k < |es| - 1
    ensures var n, rest := |es| - 1, Without(es, k);
            |rest| == n && rest[..n - 1] == Without(es[..n], k) && rest[n - 1] == es[n]
  {
  }

  lemma TakeOut(es: seq<Entry>, k: nat)
    requires k < |es|
    ensures multiset(es) == multiset(Without(es, k)) + multiset{es[k]}
  {
    assert es == es[..k] + [es[k]] + es[k + 1..];
  }

  /** It does not depend on the order of the entries. */
  lemma {:induction false} GatherSame<T>(f: Entry -> seq<T>, es: seq<Entry>, fs: seq<Entry>)
    requires multiset(es) == multiset(fs)
    ensures multiset(Gather(f, es)) == multiset(Gather(f, fs))
  {
    if es != [] {
      hide Gather;
      assert es[0] in multiset(es);
      assert es[0] in fs;
      var k :| 0 <= k < |fs| && fs[k] == es[0];
      TakeOut(es, 0);
      TakeOut(fs, k);
      GatherTakeOut(f, es, 0);
      GatherTakeOut(f, fs, k);
      assert multiset(Without(es, 0)) == multiset(es) - multiset{es[0]};
      assert multiset(Without(fs, k)) == multiset(fs) - multiset{es[0]};
      GatherSame(f, Without(es, 0), Without(fs, k));
    } else {
      assert |multiset(fs)| == 0;
    }
  }

  lemma {:induction false} GatherAgrees<T>(f: Entry -> seq<T>, g: Entry -> seq<T>, es: seq<Entry>, fs: seq<Entry>)
    requires |es| == |fs| && forall i :: 0 <= i < |es| ==> f(es[i]) == g(fs[i])
    ensures Gather(f, es) == Gather(g, fs)
  {
    if es != [] { GatherAgrees(f, g, es[..|es| - 1], fs[..|es| - 1]); }
  }

  lemma {:induction false} GatherEach<T>(f: Entry -> seq<T>, es: seq<Entry>, r: seq<T>)
    requires |r| == |es| && forall i :: 0 <= i < |es| ==> f(es[i]) == [r[i]]
    ensures Gather(f, es) == r
  {
    if es != [] {
      var n := |es| - 1;
      GatherEach(f, es[..n], r[..n]);
      assert r == r[..n] + [r[n]];
    }
  }

  // ----------------------------------------------------------------- what rounds never change

  /** The part of an entry that the scheduler never writes. */
  function Task(e: Entry): (int, int) {
    (e.id, e.interval)
  }

  function Tasks(es: seq<Entry>): (r: seq<(int, int)>)
    ensures |r| == |es|
  {
    seq(|es|, x requires 0 <= x < |es| => Task(es[x]))
  }

  lemma TasksSame(es: seq<Entry>, fs: seq<Entry>)
    requires multiset(es) == multiset(fs)
    ensures multiset(Tasks(es)) == multiset(Tasks(fs))
  {
    var f := (e: Entry) => [Task(e)];
    GatherEach(f, es, Tasks(es));
    GatherEach(f, fs, Tasks(fs));
    GatherSame(f, es, fs);
  }

  // ----------------------------------------------------------------- when a task runs

  /** When a task that was `e` is due after rounds at those times: it runs in each round that finds it due. */
  function Due(e: Entry, clock: seq<int>): int {
    if clock == [] then e.nextCall
    else
      var now, due := clock[|clock| - 1], Due(e, clock[..|clock| - 1]);
      if due <= now then now + e.interval else due
  }

  /** Round k finds it due. */
  predicate RunsAt(e: Entry, clock: seq<int>, k: nat)
    requires k < |clock|
  {
    Due(e, clock[..k]) <= clock[k]
  }

  lemma {:induction false} StillDue(e: Entry, clock: seq<int>, i: nat, j: nat)
    requires i <= j <= |clock| && forall k :: i <= k < j ==> !RunsAt(e, clock, k)
    ensures Due(e, clock[..j]) == Due(e, clock[..i])
    decreases j
  {
    if i < j {
      StillDue(e, clock, i, j - 1);
      assert clock[..j][..j - 1] == clock[..j - 1] && !RunsAt(e, clock, j - 1);
    }
  }

  /** After a task has run at time t its next run is in the first later round that sees the clock at t + interval or
      beyond, whatever the clock did in between. */
  lemma NextRun(e: Entry, clock: seq<int>, i: nat, j: nat)
    requires i < j < |clock| && RunsAt(e, clock, i) && forall k :: i < k < j ==> !RunsAt(e, clock, k)
    ensures RunsAt(e, clock, j) <==> clock[i] + e.interval <= clock[j]
  {
    StillDue(e, clock, i + 1, j);
    assert clock[..i + 1][..i] == clock[..i];
  }

  /** And its first run is in the first round that sees the clock at its first call time or beyond. */
  lemma FirstRun(e: Entry, clock: seq<int>, j: nat)
    requires j < |clock| && forall k :: 0 <= k < j ==> !RunsAt(e, clock, k)
    ensures RunsAt(e, clock, j) <==> e.nextCall <= clock[j]
  {
    StillDue(e, clock, 0, j);
    assert clock[..0] == [];
  }

  ghost function Advanced(es: seq<Entry>, clock: seq<int>): (r: seq<Entry>)
    ensures |r| == |es|
  {
    seq(|es|, x requires 0 <= x < |es| => es[x].(nextCall := Due(es[x], clock)))
  }

  /** The tasks that run in round k. */
  ghost function RunIn(es: seq<Entry>, clock: seq<int>, k: nat): seq<(int, int)>
    requires k < |clock|
  {
    Gather(e => if RunsAt(e, clock, k) then [Task(e)] else [], es)
  }

  /** The tasks in the slots `ran`. */
  function Picked(es: seq<Entry>, ran: seq<nat>): (r: seq<(int, int)>)
    requires forall i :: 0 <= i < |ran| ==> ran[i] < |es|
    ensures |r| == |ran|
  {
    seq(|ran|, i requires 0 <= i < |ran| => Task(es[ran[i]]))
  }

  function IfDue(now: int): Entry -> seq<(int, int)> {
    (e: Entry) => if e.nextCall <= now then [Task(e)] else []
  }

  lemma {:induction false} PickedDue(es: seq<Entry>, ran: seq<nat>, now: int)
    requires NoDup(ran) && Within(ran, |es|)
    requires forall x :: 0 <= x < |es| ==> (x in ran <==> es[x].nextCall <= now)
    ensures multiset(Picked(es, ran)) == multiset(Gather(IfDue(now), es))
    decreases |es|
  {
    if es != [] {
      var n := |es| - 1;
      if n in ran {
        var p :| 0 <= p < |ran| && ran[p] == n;
        var rest := ran[..p] + ran[p + 1..];
        RestOfRan(ran, p, rest, n);
        assert forall x :: 0 <= x < n ==> (x in rest <==> x in ran);
        PickedDue(es[..n], rest, now);
        PickedRest(es, ran, p, rest);
      } else {
        RanBelow(es, ran, now);
        PickedDue(es[..n], ran, now);
        assert Picked(es[..n], ran) == Picked(es, ran);
      }
    }
  }

  lemma RanBelow(es: seq<Entry>, ran: seq<nat>, now: int)
    requires es != [] && Within(ran, |es|) && |es| - 1 !in ran
    ensures Within(ran, |es| - 1)
  {
    forall i | 0 <= i < |ran| ensures ran[i] < |es| - 1 { assert ran[i] in ran; }
  }

  lemma RestOfRan(ran: seq<nat>, p: nat, rest: seq<nat>, n: nat)
    requires NoDup(ran) && Within(ran, n + 1) && p < |ran| && ran[p] == n && rest == ran[..p] + ran[p + 1..]
    ensures NoDup(rest) && Within(rest, n) && forall x :: 0 <= x < n ==> (x in rest <==> x in ran)
  {
    assert forall i :: 0 <= i < |rest| ==> rest[i] == if i < p then ran[i] else ran[i + 1];
    forall x | 0 <= x < n && x in ran ensures x in rest {
      var i :| 0 <= i < |ran| && ran[i] == x;
      assert rest[if i < p then i else i - 1] == x;
    }
  }

  lemma PickedRest(es: seq<Entry>, ran: seq<nat>, p: nat, rest: seq<nat>)
    requires es != [] && Within(ran, |es|) && p < |ran| && ran[p] == |es| - 1
    requires rest == ran[..p] + ran[p + 1..] && Within(rest, |es| - 1)
    ensures multiset(Picked(es, ran)) == multiset(Picked(es[..|es| - 1], rest)) + multiset{Task(es[|es| - 1])}
  {
    var n := |es| - 1;
    var all, some := Picked(es, ran), Picked(es[..n], rest);
    assert all[..p] == some[..p] && all[p + 1..] == some[p..];
    assert all == all[..p] + [Task(es[n])] + all[p + 1..] && some == some[..p] + some[p..];
  }

  /** An entry after a round at that time. */
  function Stepped(e: Entry, now: int): Entry {
    e.(nextCall := if e.nextCall <= now then now + e.interval else e.nextCall)
  }

  /** A round takes rearranged entries, as the earlier rounds have left them, to the next ones, rearranged. */
  lemma RoundAdvances(es0: seq<Entry>, clock: seq<int>, k: nat, es: seq<Entry>, ran: seq<nat>, es': seq<Entry>)
    requires k < |clock| && multiset(es) == multiset(Advanced(es0, clock[..k]))
    requires forall x :: 0 <= x < |es| ==> (x in ran <==> es[x].nextCall <= clock[k])
    requires multiset(es') == multiset(Executed(es, ran, clock[k]))
    ensures multiset(es') == multiset(Advanced(es0, clock[..k + 1]))
  {
    var now, was := clock[k], Advanced(es0, clock[..k]);
    var f := (e: Entry) => [Stepped(e, now)];
    assert clock[..k + 1][..k] == clock[..k];
    GatherEach(f, es, Executed(es, ran, now));
    GatherEach(f, was, Advanced(es0, clock[..k + 1]));
    GatherSame(f, es, was);
  }

  lemma RoundRuns(es0: seq<Entry>, clock: seq<int>, k: nat, es: seq<Entry>, ran: seq<nat>)
    requires k < |clock| && multiset(es) == multiset(Advanced(es0, clock[..k])) && NoDup(ran) && Within(ran, |es|)
    requires forall x :: 0 <= x < |es| ==> (x in ran <==> es[x].nextCall <= clock[k])
    ensures multiset(Picked(es, ran)) == multiset(RunIn(es0, clock, k))
  {
    PickedDue(es, ran, clock[k]);
    GatherSame(IfDue(clock[k]), es, Advanced(es0, clock[..k]));
    GatherAgrees(IfDue(clock[k]), e => if RunsAt(e, clock, k) then [Task(e)] else [],
                 Advanced(es0, clock[..k]), es0);
  }

  lemma {:induction false} NoRoundYet(es: seq<Entry>, clock: seq<int>)
    ensures Advanced(es, clock[..0]) == es
  {
  }

  /** The first call times: an interval from now for an entry without a base time; otherwise on the grid of its base,
      within the coming interval if the base is not in the future, else within the one after it. */
  ghost predicate FirstDue(es: seq<Entry>, times: seq<TimeInfo>, now: int, base: TimeInfo -> int, ready: seq<Entry>) {
    && |es| == |times| == |ready| && Positive(es)
    && forall i :: 0 <= i < |es| ==>
         && Task(ready[i]) == Task(es[i])
         && var r, n := ready[i].nextCall, es[i].interval;
            if times[i].hour == TIME_NONE then r == now + n
            else
              && (r - base(times[i])) % n == 0
              && if base(times[i]) <= now then now < r <= now + n else now + n <= r < now + 2 * n
  }

  lemma LaterBase(e: Entry, t: TimeInfo, now: int, base: TimeInfo -> int)
    requires e.interval > 0 && t.hour != TIME_NONE && base(t) > now
    ensures now + e.interval <= FirstCall(e, t, now, base) < now + 2 * e.interval
  {
  }

  lemma StartedDue(es: seq<Entry>, times: seq<TimeInfo>, now: int, base: TimeInfo -> int, es': seq<Entry>)
    requires |es| == |times| == |es'| && Started(es, times, now, base, es', |es|)
    ensures FirstDue(es, times, now, base, es') && Positive(es') && Tasks(es') == Tasks(es)
  {
    hide FirstCall;
    forall i | 0 <= i < |es|
      ensures var r, n := es'[i].nextCall, es[i].interval;
              if times[i].hour == TIME_NONE then r == now + n
              else
                && (r - base(times[i])) % n == 0
                && if base(times[i]) <= now then now < r <= now + n else now + n <= r < now + 2 * n
    {
      if times[i].hour == TIME_NONE {
        NoBase(es[i], times[i], now, base);
      } else {
        FirstCallWindow(es[i], times[i], now, base);
        if base(times[i]) > now { LaterBase(es[i], times[i], now, base); }
      }
    }
  }

  lemma NoBase(e: Entry, t: TimeInfo, now: int, base: TimeInfo -> int)
    requires e.interval > 0 && t.hour == TIME_NONE
    ensures FirstCall(e, t, now, base) == now + e.interval
  {
  }

  lemma DueLater(es: seq<Entry>, times: seq<TimeInfo>, now: int, base: TimeInfo -> int, ready: seq<Entry>)
    requires FirstDue(es, times, now, base, ready)
    ensures Later(ready, now)
  {
  }

  class Schedule {
    const qsort: seq<Entry> -> seq<Entry>
    var entries: seq<Entry>
    var next: seq<int>
    var head: int                // pHead
    var tail: int                // pTail
    ghost var order: seq<nat>    // the slots from pHead to pTail

    ghost predicate Shaped()
      reads this
    {
      |entries| == |next| > 0 && Sorts(qsort) && Positive(entries)
    }

    /** The list from pHead visits every slot once, in the order of next_call_time, and ends at pTail with NIL. */
    ghost predicate Valid()
      reads this
    {
      && Shaped() && |order| == |entries| && Linked(next, order) && Sorted(entries, order)
      && head == order[0] && tail == order[|order| - 1]
    }

    /** sched_make_chain, and the resetting of pHead and pTail that follows it. */
    method MakeChain()
      requires Shaped()
      modifies this
      ensures Valid() && entries == qsort(old(entries)) && multiset(entries) == multiset(old(entries))
    {
      var n := |entries|;
      assert multiset(qsort(entries)) == multiset(entries);
      SameLength(qsort(entries), entries);
      PositiveSame(entries, qsort(entries));
      entries := qsort(entries);
      var i := 0;
      while i < n - 1
        invariant 0 <= i <= n - 1 && |next| == n
        invariant forall k :: 0 <= k < i ==> next[k] == k + 1
        modifies this`next
      {
        next := next[i := i + 1];
        i := i + 1;
      }
      next := next[n - 1 := NIL];
      head, tail := 0, n - 1;
      order := seq(n, k requires 0 <= k < n => k);
    }

    /** The end of a round: either the whole list is sorted again or the executed prefix is relinked. */
    method Repair(count: nat, current: int, ghost es: seq<Entry>, ghost now: int, ghost ran: seq<nat>)
      requires Shaped() && |es| == |entries| == |order| > 1 && Linked(next, order) && Sorted(es, order)
      requires head == order[0] && tail == order[|order| - 1]
      requires count <= |order| && current == After(order, count - 1)
      requires ran == order[..count] && entries == Executed(es, ran, now)
      modifies this
      ensures Valid() && multiset(entries) == multiset(old(entries))
    {
      hide Linked, Sorted, Sorts, Executed, Within, NoDup;
      if count > |entries| / 2 {
        MakeChain();
        return;
      }
      StartRelinking(es, next, order, count, now);
      ghost var L;
      next, head, tail, L :=
        RelinkAll(entries, next, current, tail, head, count, order[..count], order[count], order[count..]);
      order := L;
    }

    /** One round of sched_thread_entrance at time `now`; `ran` lists the slots whose tasks ran, in order. */
    method Round(now: int, stop: int) returns (ran: seq<nat>)
      requires Valid()
      modifies this
      ensures Valid() && |entries| == |old(entries)|
      ensures NoDup(ran) && Within(ran, |old(entries)|) && ran <= old(order)
      ensures multiset(entries) == multiset(Executed(old(entries), ran, now))
      ensures AllDue(old(entries), ran, now)
      ensures stop < 0 ==> forall x :: 0 <= x < |old(entries)| ==>
                (x in ran <==> old(entries)[x].nextCall <= now)
      ensures stop < 0 ==> Later(entries, now)
    {
      hide Executed, Later, AllDue, Sorted, Positive, Linked, NoDup, Sorts;
      ghost var es := entries;
      var count, current;
      entries, count, current, ran := Execute(entries, next, head, now, stop, order);
      ghost var executed := entries;
      PositiveExecuted(es, ran, now);
      PrefixNoDup(next, order, count, es, entries);
      if stop < 0 {
        DueExactly(es, order, count, now);
        LaterExecuted(es, ran, now);
      }
      if |entries| > 1 {
        Repair(count, current, es, now, ran);
        SameLength(executed, entries);
        if stop < 0 { LaterSame(executed, entries, now); }
      }
    }

    /** The thread up to its first round; `ready` are the entries before they are sorted. */
    method Start(times: seq<TimeInfo>, now: int, base: TimeInfo -> int) returns (err: int, ghost ready: seq<Entry>)
      requires |entries| == |next| == |times| && Sorts(qsort)
      modifies this
      ensures err == (if old(entries) == [] then ENOENT
                      else if exists i :: 0 <= i < |times| && old(entries)[i].interval <= 0 then EINVAL else 0)
      ensures err == 0 ==> Valid() && multiset(Tasks(entries)) == multiset(Tasks(old(entries)))
      ensures err == 0 ==> multiset(entries) == multiset(ready) && FirstDue(old(entries), times, now, base, ready)
      ensures err == 0 ==> Later(entries, now)
    {
      ghost var es := entries;
      ghost var n;
      err, entries, n := InitEntries(entries, times, now, base);
      ready := entries;
      if err != 0 {
        return;
      }
      StartedDue(es, times, now, base, entries);
      DueLater(es, times, now, base, entries);
      hide FirstDue, Started;
      MakeChain();
      TasksSame(ready, entries);
      LaterSame(ready, entries, now);
    }

    /** Any number of rounds, round k seeing the clock at clock[k], none of them stopped; log[k] are the tasks that ran
        in it. */
    method Run(clock: seq<int>) returns (log: seq<seq<(int, int)>>)
      requires Valid()
      modifies this
      ensures Valid() && multiset(Tasks(entries)) == multiset(Tasks(old(entries)))
      ensures clock != [] ==> Later(entries, clock[|clock| - 1])
      ensures |log| == |clock|
      ensures forall k :: 0 <= k < |clock| ==> multiset(log[k]) == multiset(RunIn(old(entries), clock, k))
      ensures multiset(entries) == multiset(Advanced(old(entries), clock))
    {
      hide Linked, Sorted, Sorts, Positive, Later, Executed, Advanced, RunIn, NoDup;
      ghost var es0 := entries;
      log := [];
      NoRoundYet(es0, clock);
      for k := 0 to |clock|
        invariant Valid() && |log| == k
        invariant k > 0 ==> Later(entries, clock[k - 1])
        invariant multiset(entries) == multiset(Advanced(es0, clock[..k]))
        invariant forall i :: 0 <= i < k ==> multiset(log[i]) == multiset(RunIn(es0, clock, i))
      {
        var es := entries;
        var ran := Round(clock[k], -1);
        RoundAdvances(es0, clock, k, es, ran, entries);
        RoundRuns(es0, clock, k, es, ran);
        log := log + [Picked(es, ran)];
      }
      assert clock[..|clock|] == clock;
      TasksSame(entries, Advanced(es0, clock));
      SameTasks(es0, clock);
    }
  }

  lemma SameTasks(es: seq<Entry>, clock: seq<int>)
    ensures Tasks(Advanced(es, clock)) == Tasks(es)
  {
  }
}
