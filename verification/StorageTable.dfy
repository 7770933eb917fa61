/** The table of known storage servers of FastDFS/storage/tracker_client_thread.c, as one reporter thread sees it.

    An address is represented by its rank in the order of strcmp, the only thing the code uses.
    g_storage_servers[0..g_storage_count) is `servers`; a pointer into it is an index. */
module StorageTable {

  const WAIT_SYNC := 1
  const SYNCING := 2
  const DELETED := 3
  const NONE := 99
  const MAX_SERVERS := 32

  datatype Server = Server(ip: int, status: int)

  // ----------------------------------------------------------------- the sorted index

  ghost predicate Ascending(sv: seq<Server>, order: seq<nat>) {
    && (forall i :: 0 <= i < |order| ==> order[i] < |sv|)
    && (forall i, j :: 0 <= i < j < |order| ==> sv[order[i]].ip < sv[order[j]].ip)
  }

  /** `order` lists every server once, ascending by address. */
  ghost predicate TableOk(sv: seq<Server>, order: seq<nat>) {
    |order| == |sv| && Ascending(sv, order) && forall k :: 0 <= k < |sv| ==> k in order
  }

  ghost predicate Distinct(sv: seq<Server>) {
    forall i, j :: 0 <= i < j < |sv| ==> sv[i].ip != sv[j].ip
  }

  lemma TableDistinct(sv: seq<Server>, order: seq<nat>)
    requires TableOk(sv, order)
    ensures Distinct(sv)
  {
    forall i, j | 0 <= i < j < |sv| ensures sv[i].ip != sv[j].ip {
      assert i in order && j in order;
      var p, q :| 0 <= p < |order| && 0 <= q < |order| && order[p] == i && order[q] == j;
      assert p < q || q < p;
    }
  }

  predicate Known(sv: seq<Server>, ip: int) {
    exists k :: 0 <= k < |sv| && sv[k].ip == ip
  }

  ghost function Inserted(order: seq<nat>, p: nat, x: nat): seq<nat>
    requires p <= |order|
  {
    order[..p] + [x] + order[p..]
  }

  /** `x` belongs at position p: the addresses before are lower, the ones after are higher. */
  ghost predicate Belongs(sv: seq<Server>, order: seq<nat>, x: nat, p: nat)
    requires Ascending(sv, order) && x < |sv|
  {
    && p <= |order|
    && (forall i :: 0 <= i < p ==> sv[order[i]].ip < sv[x].ip)
    && (forall i :: p <= i < |order| ==> sv[x].ip < sv[order[i]].ip)
  }

  lemma InsertKeepsAscending(sv: seq<Server>, order: seq<nat>, x: nat, p: nat)
    requires Ascending(sv, order) && x < |sv| && Belongs(sv, order, x, p)
    ensures Ascending(sv, Inserted(order, p, x))
  {
  }

  lemma InsertKeepsAll(order: seq<nat>, p: nat, n: nat)
    requires p <= |order| && forall k :: 0 <= k < n ==> k in order
    ensures forall k :: 0 <= k < n + 1 ==> k in Inserted(order, p, n)
  {
    var order' := Inserted(order, p, n);
    assert order'[p] == n;
    forall k | 0 <= k < n ensures k in order' {
      assert k in order;
      var i :| 0 <= i < |order| && order[i] == k;
      assert order'[if i < p then i else i + 1] == k;
    }
  }

  /** A new server in the next free slot, inserted between the lower and the higher addresses. */
  lemma InsertKeepsTable(sv: seq<Server>, order: seq<nat>, s: Server, p: nat)
    requires TableOk(sv, order) && Ascending(sv + [s], order) && Belongs(sv + [s], order, |sv|, p)
    ensures TableOk(sv + [s], Inserted(order, p, |sv|))
  {
    InsertKeepsAscending(sv + [s], order, |sv|, p);
    InsertKeepsAll(order, p, |sv|);
    hide Ascending, Belongs;
  }

  /** Only addresses and slots matter to the index. */
  lemma StatusKeepsTable(sv: seq<Server>, order: seq<nat>, k: nat, status: int)
    requires TableOk(sv, order) && k < |sv|
    ensures TableOk(sv[k := sv[k].(status := status)], order)
  {
  }

  /** The insertion has moved the pointers from position k on one place up. */
  ghost predicate Shifted(now: seq<nat>, order: seq<nat>, k: nat) {
    && k <= |order| < |now|
    && (forall i :: 0 <= i < k ==> now[i] == order[i])
    && (forall i :: k < i <= |order| ==> now[i] == order[i - 1])
  }

  /** The loop that takes a duplicate back. */
  method Restore(a: array<nat>, from: nat, n: nat, ghost order: seq<nat>)
    requires |order| == n && Shifted(a[..], order, from)
    modifies a
    ensures a[..n] == order && a[n + 1..] == old(a[n + 1..])
  {
    var k := from;
    while k < n
      invariant from <= k <= n && Shifted(a[..], order, k)
      invariant a[n + 1..] == old(a[n + 1..])
    {
      a[k] := a[k + 1];
      k := k + 1;
    }
  }

  lemma ShiftedInserted(now: seq<nat>, order: seq<nat>, k: nat, x: nat)
    requires Shifted(now, order, k)
    ensures now[k := x][..|order| + 1] == Inserted(order, k, x)
  {
  }

  lemma ShiftOne(now: seq<nat>, order: seq<nat>, k: nat)
    requires Shifted(now, order, k) && k > 0
    ensures now[k - 1] == order[k - 1] && Shifted(now[k := now[k - 1]], order, k - 1)
  {
  }

  /** tracker_insert_into_sorted_servers: `a` is g_sorted_storages with n live pointers, x the inserted server. */
  method InsertIntoSorted(a: array<nat>, n: nat, sv: seq<Server>, x: nat) returns (inserted: bool, ghost p: nat)
    requires n < a.Length && x < |sv| && Ascending(sv, a[..n])
    modifies a
    ensures inserted <==> forall i :: 0 <= i < n ==> sv[old(a[..n])[i]].ip != sv[x].ip
    ensures inserted ==> Belongs(sv, old(a[..n]), x, p) && a[..n + 1] == Inserted(old(a[..n]), p, x)
    ensures !inserted ==> a[..n] == old(a[..n])
    ensures a[n + 1..] == old(a[n + 1..])
  {
    ghost var order := a[..n];
    var k := n;
    assert Shifted(a[..], order, k);
    hide Shifted, Inserted;
    while k > 0
      invariant k <= n && Shifted(a[..], order, k) && a[n + 1..] == old(a[n + 1..])
      invariant forall i :: k <= i < n ==> sv[x].ip < sv[order[i]].ip
    {
      ShiftOne(a[..], order, k);
      if sv[x].ip > sv[a[k - 1]].ip {
        break;
      } else if sv[x].ip < sv[a[k - 1]].ip {
        ghost var now := a[..];
        a[k] := a[k - 1];
        assert a[..] == now[k := now[k - 1]];
      } else {
        Restore(a, k, n, order);
        return false, k;
      }
      k := k - 1;
    }
    ShiftedInserted(a[..], order, k, x);
    ghost var now := a[..];
    a[k] := x;
    assert a[..] == now[k := x] && a[..n + 1] == a[..][..n + 1];
    return true, k;
  }

  /** bsearch over the sorted index. */
  method Search(sv: seq<Server>, order: seq<nat>, ip: int) returns (slot: int)
    requires TableOk(sv, order)
    ensures slot == -1 || 0 <= slot < |sv|
    ensures slot >= 0 ==> sv[slot].ip == ip
    ensures slot == -1 <==> !Known(sv, ip)
  {
    var lo, hi := 0, |order|;
    while lo < hi
      invariant 0 <= lo <= hi <= |order|
      invariant forall i :: 0 <= i < lo ==> sv[order[i]].ip < ip
      invariant forall i :: hi <= i < |order| ==> ip < sv[order[i]].ip
    {
      var mid := (lo + hi) / 2;
      if sv[order[mid]].ip < ip {
        lo := mid + 1;
      } else if ip < sv[order[mid]].ip {
        hi := mid;
      } else {
        return order[mid];
      }
    }
    forall k | 0 <= k < |sv| ensures sv[k].ip != ip {
      assert k in order;
    }
    return -1;
  }

  // ----------------------------------------------------------------- merging a tracker's list

  datatype Decision = Same | Report | Ignore | Overwrite

  /** What happens to a known server whose status is `cur` when a tracker says `said`. */
  function Decide(cur: int, said: int): Decision {
    if cur == said then Same
    else if ((said == WAIT_SYNC || said == SYNCING) && cur > said) || cur == DELETED then Report
    else if cur == NONE && said == DELETED then Ignore
    else Overwrite
  }

  /** Overwriting never revives a deleted server and never takes a status down to WAIT_SYNC or SYNCING. */
  ghost predicate MayBecome(cur: int, next: int) {
    cur == next || (cur != DELETED && (next == WAIT_SYNC || next == SYNCING ==> cur < next))
  }

  lemma OverwriteAllowed(cur: int, said: int)
    ensures Decide(cur, said) == Overwrite <==> cur != said && MayBecome(cur, said) && !(cur == NONE && said == DELETED)
    ensures Decide(cur, said) == Report <==> !MayBecome(cur, said)
  {
  }

  /** The first slot with that address. */
  function SlotOf(sv: seq<Server>, ip: int): (k: nat)
    requires Known(sv, ip)
    ensures k < |sv| && sv[k].ip == ip
  {
    if sv[0].ip == ip then 0 else
      assert Known(sv[1..], ip) by {
        var k :| 0 <= k < |sv| && sv[k].ip == ip;
        assert sv[1..][k - 1].ip == ip;
      }
      1 + SlotOf(sv[1..], ip)
  }

  /** One entry of the list. */
  function MergeOne(sv: seq<Server>, b: Server): seq<Server> {
    if Known(sv, b.ip) then
      var k := SlotOf(sv, b.ip);
      if Decide(sv[k].status, b.status) == Overwrite then sv[k := sv[k].(status := b.status)] else sv
    else if b.status == DELETED || |sv| >= MAX_SERVERS then sv
    else sv + [b]
  }

  /** The first pass over the list. */
  function MergeAll(sv: seq<Server>, list: seq<Server>): seq<Server>
    decreases |list|
  {
    if list == [] then sv
    else MergeOne(MergeAll(sv, list[..|list| - 1]), list[|list| - 1])
  }

  /** nDeletedCount */
  function DeletedCount(sv: seq<Server>, list: seq<Server>): nat
    decreases |list|
  {
    if list == [] then 0
    else
      var rest, b := list[..|list| - 1], list[|list| - 1];
      DeletedCount(sv, rest) + if !Known(MergeAll(sv, rest), b.ip) && b.status == DELETED then 1 else 0
  }

  /** What the first pass puts into diffServers. */
  function Kept(sv: seq<Server>, list: seq<Server>): seq<Server>
    decreases |list|
  {
    if list == [] then []
    else
      var rest, b := list[..|list| - 1], list[|list| - 1];
      var sv' := MergeAll(sv, rest);
      Kept(sv, rest)
      + if Known(sv', b.ip) && Decide(sv'[SlotOf(sv', b.ip)].status, b.status) == Report then [sv'[SlotOf(sv', b.ip)]]
        else []
  }

  /** From sv to sv' no server is forgotten, moved or renamed, and a deleted one stays as it is. */
  ghost predicate Evolves(sv: seq<Server>, sv': seq<Server>) {
    && |sv| <= |sv'|
    && forall k :: 0 <= k < |sv| ==> sv'[k].ip == sv[k].ip && (sv[k].status == DELETED ==> sv'[k] == sv[k])
  }

  lemma MergeOneEvolves(sv: seq<Server>, b: Server)
    ensures Evolves(sv, MergeOne(sv, b))
    ensures forall k :: 0 <= k < |sv| ==> MayBecome(sv[k].status, MergeOne(sv, b)[k].status)
    ensures Distinct(sv) ==> Distinct(MergeOne(sv, b))
    ensures forall k :: |sv| <= k < |MergeOne(sv, b)| ==> MergeOne(sv, b)[k] == b
  {
  }

  lemma {:induction false} MergeEvolves(sv: seq<Server>, list: seq<Server>)
    ensures Evolves(sv, MergeAll(sv, list))
    ensures Distinct(sv) ==> Distinct(MergeAll(sv, list))
    decreases |list|
  {
    if list != [] {
      var rest := list[..|list| - 1];
      MergeEvolves(sv, rest);
      MergeOneEvolves(MergeAll(sv, rest), list[|list| - 1]);
    }
  }

  // ----------------------------------------------------------------- the test after the first pass

  function IpSet(sv: seq<Server>): set<int> {
    set k | 0 <= k < |sv| :: sv[k].ip
  }

  /** The entries that the first pass has to add. */
  function NewCount(sv: seq<Server>, list: seq<Server>): nat
    decreases |list|
  {
    if list == [] then 0
    else
      var b := list[|list| - 1];
      NewCount(sv, list[..|list| - 1]) + if !Known(sv, b.ip) && b.status != DELETED then 1 else 0
  }

  lemma InIpSet(sv: seq<Server>, ip: int)
    ensures ip in IpSet(sv) <==> Known(sv, ip)
  {
  }

  lemma MergeOneKnown(sv: seq<Server>, b: Server, ip: int)
    requires ip != b.ip
    ensures Known(MergeOne(sv, b), ip) <==> Known(sv, ip)
  {
    var sv' := MergeOne(sv, b);
    if k :| 0 <= k < |sv| && sv[k].ip == ip { assert sv'[k].ip == ip; }
    if k :| 0 <= k < |sv'| && sv'[k].ip == ip { assert sv[k].ip == ip; }
  }

  lemma KnownSnoc(list: seq<Server>, ip: int)
    requires list != []
    ensures Known(list, ip) <==> list[|list| - 1].ip == ip || Known(list[..|list| - 1], ip)
  {
    var rest := list[..|list| - 1];
    if k :| 0 <= k < |list| && list[k].ip == ip {
      assert k < |rest| ==> rest[k].ip == ip;
    }
  }

  lemma {:induction false} UnlistedKnown(sv: seq<Server>, list: seq<Server>, ip: int)
    requires !Known(list, ip)
    ensures Known(MergeAll(sv, list), ip) <==> Known(sv, ip)
    decreases |list|
  {
    if list != [] {
      var rest, b := list[..|list| - 1], list[|list| - 1];
      KnownSnoc(list, ip);
      UnlistedKnown(sv, rest, ip);
      MergeOneKnown(MergeAll(sv, rest), b, ip);
    }
  }

  lemma IpSetSnoc(sv: seq<Server>, b: Server)
    ensures IpSet(sv + [b]) == IpSet(sv) + {b.ip}
  {
    var sv' := sv + [b];
    assert sv'[|sv|] == b;
    forall ip | ip in IpSet(sv) ensures ip in IpSet(sv') {
      var k :| 0 <= k < |sv| && sv[k].ip == ip;
      assert sv'[k].ip == ip;
    }
  }

  lemma {:induction false} IpSetSize(sv: seq<Server>)
    requires Distinct(sv)
    ensures |IpSet(sv)| == |sv|
  {
    if sv == [] {
      assert IpSet(sv) == {};
    } else {
      var rest, b := sv[..|sv| - 1], sv[|sv| - 1];
      IpSetSize(rest);
      IpSetSnoc(rest, b);
      assert sv == rest + [b];
      assert b.ip !in IpSet(rest);
    }
  }

  lemma CommonSnoc(sv: seq<Server>, rest: seq<Server>, b: Server)
    requires !Known(rest, b.ip)
    ensures |IpSet(sv) * IpSet(rest + [b])| == |IpSet(sv) * IpSet(rest)| + if Known(sv, b.ip) then 1 else 0
  {
    IpSetSnoc(rest, b);
    InIpSet(sv, b.ip);
    InIpSet(rest, b.ip);
    var common := IpSet(sv) * IpSet(rest);
    assert IpSet(sv) * IpSet(rest + [b]) == if Known(sv, b.ip) then common + {b.ip} else common;
  }

  lemma MergeOneSize(sv: seq<Server>, b: Server)
    ensures |MergeOne(sv, b)|
         == |sv| + if Known(sv, b.ip) || b.status == DELETED || |sv| >= MAX_SERVERS then 0 else 1
  {
  }

  lemma {:induction false} CountAfter(sv: seq<Server>, list: seq<Server>)
    requires Distinct(sv) && Distinct(list) && |sv| + NewCount(sv, list) <= MAX_SERVERS
    ensures |MergeAll(sv, list)| == |sv| + NewCount(sv, list)
    ensures |MergeAll(sv, list)| + DeletedCount(sv, list) + |IpSet(sv) * IpSet(list)| == |sv| + |list|
    decreases |list|
  {
    if list == [] {
      assert IpSet(sv) * IpSet(list) == {};
    } else {
      var rest, b := list[..|list| - 1], list[|list| - 1];
      CountAfter(sv, rest);
      assert !Known(rest, b.ip);
      UnlistedKnown(sv, rest, b.ip);
      CommonSnoc(sv, rest, b);
      MergeOneSize(MergeAll(sv, rest), b);
      assert list == rest + [b];
      hide Known, IpSet, Distinct, MergeOne;
    }
  }

  /** The count test of tracker_merge_servers succeeds exactly when the tracker lists every server known before. */
  lemma CountTest(sv: seq<Server>, list: seq<Server>)
    requires Distinct(sv) && Distinct(list) && |sv| + NewCount(sv, list) <= MAX_SERVERS
    ensures |MergeAll(sv, list)| + DeletedCount(sv, list) == |list| <==>
            forall k :: 0 <= k < |sv| ==> Known(list, sv[k].ip)
  {
    CountAfter(sv, list);
    IpSetSize(sv);
    var all, common := IpSet(sv), IpSet(sv) * IpSet(list);
    SubsetSize(common, all);
    if common == all {
      forall k | 0 <= k < |sv| ensures Known(list, sv[k].ip) {
        assert sv[k].ip in all;
        assert sv[k].ip in common;
        InIpSet(list, sv[k].ip);
      }
    } else {
      var ip :| ip in all && ip !in common;
      var k :| 0 <= k < |sv| && sv[k].ip == ip;
      InIpSet(list, ip);
    }
  }

  lemma SubsetSize(a: set<int>, b: set<int>)
    requires a <= b
    ensures |a| == |b| <==> a == b
    ensures |a| <= |b|
  {
    assert b == a + (b - a);
    if a != b { assert b - a != {}; }
  }

  // ----------------------------------------------------------------- the second pass

  /** The known servers, other than NONE ones, that are not in the list. */
  function Missing(list: seq<Server>, sv: seq<Server>): seq<Server> {
    if sv == [] then []
    else (if sv[0].status != NONE && !Known(list, sv[0].ip) then [sv[0]] else []) + Missing(list, sv[1..])
  }

  /** What the second pass adds: both sequences are walked side by side. */
  function Walk(list: seq<Server>, sv: seq<Server>): seq<Server>
    decreases |list| + |sv|
  {
    if sv == [] then []
    else if sv[0].status == NONE then Walk(list, sv[1..])
    else if list == [] then [sv[0]] + Walk(list, sv[1..])
    else if list[0].ip < sv[0].ip then Walk(list[1..], sv)
    else if list[0].ip == sv[0].ip then Walk(list[1..], sv[1..])
    else [sv[0]] + Walk(list, sv[1..])
  }

  ghost predicate Increasing(sv: seq<Server>) {
    forall i, j :: 0 <= i < j < |sv| ==> sv[i].ip < sv[j].ip
  }

  /** A known server in the list comes after a known server with a greater address. */
  ghost predicate Overtakes(list: seq<Server>, sv: seq<Server>, j: nat, k: nat) {
    && j < k < |sv| && sv[j].status != NONE && sv[k].status != NONE
    && Known(list, sv[k].ip) && sv[k].ip < sv[j].ip
  }

  ghost predicate Overtaken(list: seq<Server>, sv: seq<Server>) {
    exists j: nat, k: nat :: Overtakes(list, sv, j, k)
  }

  lemma KnownTail(list: seq<Server>, ip: int)
    requires list != []
    ensures Known(list, ip) <==> list[0].ip == ip || Known(list[1..], ip)
  {
    if k :| 0 <= k < |list| && list[k].ip == ip {
      if k > 0 { assert list[1..][k - 1].ip == ip; }
    }
    if k :| 0 <= k < |list[1..]| && list[1..][k].ip == ip { assert list[k + 1].ip == ip; }
  }

  /** The second pass never omits a missing server, in whatever order the two sequences are. */
  lemma {:induction false} WalkFindsMissing(list: seq<Server>, sv: seq<Server>, k: nat)
    requires k < |sv| && sv[k].status != NONE && !Known(list, sv[k].ip)
    ensures sv[k] in Walk(list, sv)
    decreases |list| + |sv|
  {
    if list != [] { KnownTail(list, sv[k].ip); }
    if sv[0].status == NONE {
      WalkFindsMissing(list, sv[1..], k - 1);
    } else if list == [] || sv[0].ip < list[0].ip {
      if k > 0 { WalkFindsMissing(list, sv[1..], k - 1); }
    } else if list[0].ip < sv[0].ip {
      WalkFindsMissing(list[1..], sv, k);
    } else {
      WalkFindsMissing(list[1..], sv[1..], k - 1);
    }
  }

  /** It adds nothing but known servers that are not NONE. */
  lemma {:induction false} WalkOnlyKnown(list: seq<Server>, sv: seq<Server>)
    ensures forall x :: x in Walk(list, sv) ==> x in sv && x.status != NONE
    decreases |list| + |sv|
  {
    if sv == [] {
    } else if sv[0].status == NONE || list == [] || sv[0].ip < list[0].ip {
      WalkOnlyKnown(list, sv[1..]);
    } else if list[0].ip < sv[0].ip {
      WalkOnlyKnown(list[1..], sv);
    } else {
      WalkOnlyKnown(list[1..], sv[1..]);
    }
  }

  lemma {:induction false} InMissing(list: seq<Server>, sv: seq<Server>, x: Server)
    requires x in Missing(list, sv)
    ensures !Known(list, x.ip)
  {
    if sv != [] && !(sv[0].status != NONE && !Known(list, sv[0].ip) && x == sv[0]) {
      InMissing(list, sv[1..], x);
    }
  }

  lemma {:induction false} MissingTail(list: seq<Server>, sv: seq<Server>)
    requires list != []
    requires forall k :: 0 <= k < |sv| && sv[k].status != NONE ==> sv[k].ip != list[0].ip
    ensures Missing(list, sv) == Missing(list[1..], sv)
  {
    if sv != [] {
      KnownTail(list, sv[0].ip);
      MissingTail(list, sv[1..]);
    }
  }

  lemma OvertakenTail(list: seq<Server>, sv: seq<Server>)
    requires list != []
    requires forall k :: 0 <= k < |sv| && sv[k].status != NONE ==> sv[k].ip != list[0].ip
    ensures Overtaken(list, sv) <==> Overtaken(list[1..], sv)
  {
    if j: nat, k: nat :| Overtakes(list, sv, j, k) {
      KnownTail(list, sv[k].ip);
      assert Overtakes(list[1..], sv, j, k);
    }
    if j: nat, k: nat :| Overtakes(list[1..], sv, j, k) {
      KnownTail(list, sv[k].ip);
      assert Overtakes(list, sv, j, k);
    }
  }

  /** The first known server overtakes nobody. */
  lemma OvertakenRest(list: seq<Server>, sv: seq<Server>)
    requires sv != []
    requires sv[0].status == NONE || forall k :: 0 < k < |sv| && Known(list, sv[k].ip) ==> sv[0].ip <= sv[k].ip
    ensures Overtaken(list, sv) <==> Overtaken(list, sv[1..])
  {
    if j: nat, k: nat :| Overtakes(list, sv, j, k) {
      assert Overtakes(list, sv[1..], j - 1, k - 1);
    }
    if j: nat, k: nat :| Overtakes(list, sv[1..], j, k) {
      assert Overtakes(list, sv, j + 1, k + 1);
    }
  }

  lemma HeadReported(list: seq<Server>, sv: seq<Server>)
    requires Increasing(list) && sv != [] && sv[0].status != NONE && (list == [] || sv[0].ip < list[0].ip)
    ensures Walk(list, sv) == [sv[0]] + Walk(list, sv[1..]) && Missing(list, sv) == [sv[0]] + Missing(list, sv[1..])
    ensures Overtaken(list, sv) <==> Overtaken(list, sv[1..])
  {
    assert !Known(list, sv[0].ip);
    OvertakenRest(list, sv);
  }

  lemma HeadListed(list: seq<Server>, sv: seq<Server>)
    requires Increasing(list) && Distinct(sv) && sv != [] && list != []
    requires sv[0].status != NONE && sv[0].ip == list[0].ip
    ensures Walk(list, sv) == Walk(list[1..], sv[1..]) && Missing(list, sv) == Missing(list[1..], sv[1..])
    ensures Overtaken(list, sv) <==> Overtaken(list[1..], sv[1..])
  {
    OvertakenRest(list, sv);
    OvertakenTail(list, sv[1..]);
    MissingTail(list, sv[1..]);
    assert Known(list, sv[0].ip);
  }

  /** For an ascending list: the second pass adds exactly the missing servers if and only if no listed server
      comes after one with a greater address. */
  lemma {:induction false} WalkExactIff(list: seq<Server>, sv: seq<Server>)
    requires Increasing(list) && Distinct(sv)
    ensures Walk(list, sv) == Missing(list, sv) <==> !Overtaken(list, sv)
    decreases |list| + |sv|
  {
    hide Overtaken;
    if sv == [] {
      NoneOvertaken(list);
    } else if sv[0].status == NONE {
      WalkExactIff(list, sv[1..]);
      OvertakenRest(list, sv);
    } else if list == [] || sv[0].ip < list[0].ip {
      WalkExactIff(list, sv[1..]);
      HeadReported(list, sv);
      var walk, missing := Walk(list, sv[1..]), Missing(list, sv[1..]);
      assert ([sv[0]] + walk)[1..] == walk && ([sv[0]] + missing)[1..] == missing;
    } else if list[0].ip == sv[0].ip {
      WalkExactIff(list[1..], sv[1..]);
      HeadListed(list, sv);
    } else {
      WalkSkips(list, sv);
      WalkExactIff(list[1..], sv);
    }
  }

  lemma NoneOvertaken(list: seq<Server>)
    ensures !Overtaken(list, [])
  {
  }

  /** The walk leaves a list entry behind. */
  lemma WalkSkips(list: seq<Server>, sv: seq<Server>)
    requires Increasing(list) && Distinct(sv) && list != [] && sv != []
    requires sv[0].status != NONE && list[0].ip < sv[0].ip
    ensures || (Missing(list, sv) == Missing(list[1..], sv) && (Overtaken(list, sv) <==> Overtaken(list[1..], sv)))
            || (Walk(list, sv) != Missing(list, sv) && Overtaken(list, sv))
  {
    if k: nat :| 0 <= k < |sv| && sv[k].status != NONE && sv[k].ip == list[0].ip {
      assert Known(list, sv[k].ip);
      assert Overtakes(list, sv, 0, k);
      assert !Known(list[1..], sv[k].ip);
      WalkFindsMissing(list[1..], sv, k);
      if Walk(list, sv) == Missing(list, sv) { InMissing(list, sv, sv[k]); }
    } else {
      MissingTail(list, sv);
      OvertakenTail(list, sv);
    }
  }

  /** When both sequences are ascending the second pass is exact. */
  lemma WalkExact(list: seq<Server>, sv: seq<Server>)
    requires Increasing(list) && Increasing(sv)
    ensures Walk(list, sv) == Missing(list, sv)
  {
    WalkExactIff(list, sv);
  }

  // ----------------------------------------------------------------- tracker_merge_servers

  lemma {:induction false} AddedAreListed(sv: seq<Server>, list: seq<Server>, k: nat)
    requires |sv| <= k < |MergeAll(sv, list)|
    ensures Known(list, MergeAll(sv, list)[k].ip)
    decreases |list|
  {
    var rest, b := list[..|list| - 1], list[|list| - 1];
    var before := MergeAll(sv, rest);
    MergeOneEvolves(before, b);
    if k < |before| {
      AddedAreListed(sv, rest, k);
      KnownSnoc(list, before[k].ip);
    }
  }

  // ----------------------------------------------------------------- what a merge does to each server

  /** A tracker's status is taken over: never from DELETED, never down to WAIT_SYNC or SYNCING, and NONE is not made
      DELETED. */
  predicate Accepts(cur: int, said: int) {
    cur != DELETED && (said == WAIT_SYNC || said == SYNCING ==> cur < said) && !(cur == NONE && said == DELETED)
  }

  /** A status that the tracker does not know of: the known one is newer, or the server is deleted. */
  predicate Newer(cur: int, said: int) {
    cur != said && (cur == DELETED || ((said == WAIT_SYNC || said == SYNCING) && said < cur))
  }

  lemma SlotIs(sv: seq<Server>, k: nat)
    requires Distinct(sv) && k < |sv|
    ensures Known(sv, sv[k].ip) && SlotOf(sv, sv[k].ip) == k
  {
  }

  /** A server that the list does not mention stays as it is; one that it does takes the listed status over or keeps its
      own. */
  lemma {:induction false} MergedStatus(sv: seq<Server>, list: seq<Server>, k: nat)
    requires Distinct(sv) && Distinct(list) && k < |sv|
    ensures var sv' := MergeAll(sv, list);
            && k < |sv'| && (!Known(list, sv[k].ip) ==> sv'[k] == sv[k])
            && forall i :: 0 <= i < |list| && list[i].ip == sv[k].ip ==>
                 sv'[k].status == if Accepts(sv[k].status, list[i].status) then list[i].status else sv[k].status
    decreases |list|
  {
    MergeEvolves(sv, list);
    if list != [] {
      var rest, b := list[..|list| - 1], list[|list| - 1];
      var before := MergeAll(sv, rest);
      MergeEvolves(sv, rest);
      MergedStatus(sv, rest, k);
      KnownSnoc(list, sv[k].ip);
      assert MergeAll(sv, list) == MergeOne(before, b);
      if b.ip == sv[k].ip {
        assert !Known(rest, b.ip);
        SlotIs(before, k);
        hide MergeAll, SlotOf;
      } else {
        hide MergeAll;
      }
    }
  }

  /** The listed servers that are to be added. */
  function Newcomers(sv: seq<Server>, list: seq<Server>): seq<Server>
    decreases |list|
  {
    if list == [] then []
    else
      var b := list[|list| - 1];
      Newcomers(sv, list[..|list| - 1]) + if !Known(sv, b.ip) && b.status != DELETED then [b] else []
  }

  /** They come behind the known ones in the order of the list, as far as there is room. */
  lemma {:induction false} NewcomersAdded(sv: seq<Server>, list: seq<Server>)
    requires |sv| <= MAX_SERVERS && Distinct(list)
    ensures var sv', more := MergeAll(sv, list), Newcomers(sv, list);
            var n := if |sv| + |more| <= MAX_SERVERS then |more| else MAX_SERVERS - |sv|;
            |sv'| == |sv| + n && forall i :: 0 <= i < n ==> sv'[|sv| + i] == more[i]
    decreases |list|
  {
    if list != [] {
      var rest, b := list[..|list| - 1], list[|list| - 1];
      var before := MergeAll(sv, rest);
      NewcomersAdded(sv, rest);
      assert !Known(rest, b.ip);
      UnlistedKnown(sv, rest, b.ip);
      assert MergeAll(sv, list) == MergeOne(before, b);
      if Known(sv, b.ip) { OldSlot(sv, rest, b); }
      hide MergeAll, SlotOf, Known;
    }
  }

  lemma OldSlot(sv: seq<Server>, rest: seq<Server>, b: Server)
    requires !Known(rest, b.ip) && Known(sv, b.ip)
    ensures Known(MergeAll(sv, rest), b.ip) && SlotOf(MergeAll(sv, rest), b.ip) < |sv|
  {
    UnlistedKnown(sv, rest, b.ip);
    var k := SlotOf(MergeAll(sv, rest), b.ip);
    if k >= |sv| { AddedAreListed(sv, rest, k); }
  }

  /** An entry whose server is known finds it as it was before the merge. */
  lemma FoundAsBefore(sv: seq<Server>, rest: seq<Server>, b: Server)
    requires Distinct(sv) && Distinct(rest) && !Known(rest, b.ip) && Known(sv, b.ip)
    ensures Known(MergeAll(sv, rest), b.ip)
    ensures var k := SlotOf(MergeAll(sv, rest), b.ip); k < |sv| && sv[k].ip == b.ip && MergeAll(sv, rest)[k] == sv[k]
  {
    OldSlot(sv, rest, b);
    MergeEvolves(sv, rest);
    MergedStatus(sv, rest, SlotOf(MergeAll(sv, rest), b.ip));
    hide MergeAll, SlotOf, Distinct;
  }

  /** A known server whose status is newer than listed. */
  ghost predicate NewerThanListed(sv: seq<Server>, list: seq<Server>, x: Server) {
    x in sv && exists i :: 0 <= i < |list| && list[i].ip == x.ip && Newer(x.status, list[i].status)
  }

  /** The first pass puts into diffServers exactly these, with their own statuses. */
  lemma {:induction false} KeptExactly(sv: seq<Server>, list: seq<Server>, x: Server)
    requires Distinct(sv) && Distinct(list)
    ensures x in Kept(sv, list) <==> NewerThanListed(sv, list, x)
    decreases |list|
  {
    if list != [] {
      var n := |list| - 1;
      var rest, b := list[..n], list[n];
      DistinctPrefix(list, n);
      hide Known, Distinct, NewerThanListed, MergeAll, SlotOf, Decide;
      KeptExactly(sv, rest, x);
      UnlistedKnown(sv, rest, b.ip);
      if Known(sv, b.ip) {
        FoundAsBefore(sv, rest, b);
        var k := SlotOf(MergeAll(sv, rest), b.ip);
        ReportIsNewer(sv[k].status, b.status);
        KeptLast(sv, list, x, k);
      } else {
        KeptNoMore(sv, list, x);
      }
    }
  }

  lemma ReportIsNewer(cur: int, said: int)
    ensures Decide(cur, said) == Report <==> Newer(cur, said)
  {
  }

  lemma KeptNoMore(sv: seq<Server>, list: seq<Server>, x: Server)
    requires list != [] && !Known(sv, list[|list| - 1].ip)
    ensures NewerThanListed(sv, list, x) <==> NewerThanListed(sv, list[..|list| - 1], x)
  {
    var rest := list[..|list| - 1];
    if NewerThanListed(sv, list, x) {
      var i :| 0 <= i < |list| && list[i].ip == x.ip && Newer(x.status, list[i].status);
      if i < |rest| { assert rest[i] == list[i]; }
    }
    if NewerThanListed(sv, rest, x) {
      var i :| 0 <= i < |rest| && rest[i].ip == x.ip && Newer(x.status, rest[i].status);
      assert list[i] == rest[i];
    }
  }

  lemma KeptLast(sv: seq<Server>, list: seq<Server>, x: Server, k: nat)
    requires Distinct(sv) && list != [] && k < |sv| && sv[k].ip == list[|list| - 1].ip
    ensures var rest, b := list[..|list| - 1], list[|list| - 1];
            NewerThanListed(sv, list, x) <==>
              NewerThanListed(sv, rest, x) || (x == sv[k] && Newer(x.status, b.status))
  {
    var rest := list[..|list| - 1];
    if NewerThanListed(sv, list, x) {
      var i :| 0 <= i < |list| && list[i].ip == x.ip && Newer(x.status, list[i].status);
      if i < |rest| { assert rest[i] == list[i]; }
    }
    if NewerThanListed(sv, rest, x) {
      var i :| 0 <= i < |rest| && rest[i].ip == x.ip && Newer(x.status, rest[i].status);
      assert list[i] == rest[i];
    }
  }

  lemma DistinctPrefix(list: seq<Server>, i: nat)
    requires Distinct(list) && i < |list|
    ensures Distinct(list[..i]) && !Known(list[..i], list[i].ip)
  {
  }

  /** The second pass as it is written: two cursors. */
  method WalkLists(list: seq<Server>, sv: seq<Server>) returns (diff: seq<Server>)
    ensures diff == Walk(list, sv)
  {
    diff := [];
    var i, k := 0, 0;
    while i < |list| && k < |sv|
      invariant 0 <= i <= |list| && 0 <= k <= |sv|
      invariant diff + Walk(list[i..], sv[k..]) == Walk(list, sv)
      decreases |list| - i + |sv| - k
    {
      ghost var before := diff;
      if sv[k].status == NONE {
        k := k + 1;
      } else if list[i].ip < sv[k].ip {
        i := i + 1;
      } else if list[i].ip == sv[k].ip {
        i, k := i + 1, k + 1;
      } else {
        diff := diff + [sv[k]];
        k := k + 1;
        assert diff + Walk(list[i..], sv[k..]) == before + ([sv[k - 1]] + Walk(list[i..], sv[k..]));
      }
    }
    while k < |sv|
      invariant 0 <= i <= |list| && 0 <= k <= |sv| && (k < |sv| ==> i == |list|)
      invariant diff + Walk(list[i..], sv[k..]) == Walk(list, sv)
    {
      ghost var before := diff;
      if sv[k].status == NONE {
        k := k + 1;
      } else {
        diff := diff + [sv[k]];
        k := k + 1;
        assert diff + Walk(list[i..], sv[k..]) == before + ([sv[k - 1]] + Walk(list[i..], sv[k..]));
      }
    }
  }

  /** The entries for which the first pass starts a sync thread. */
  predicate Starts(sv: seq<Server>, b: Server) {
    if Known(sv, b.ip) then
      var cur := sv[SlotOf(sv, b.ip)].status;
      cur == NONE && Decide(cur, b.status) == Overwrite
    else b.status != DELETED && |sv| < MAX_SERVERS
  }

  /** The first n entries could start their sync threads; start(i) is the result for entry i. */
  ghost predicate Started(sv: seq<Server>, list: seq<Server>, start: nat -> int, n: nat)
    requires n <= |list|
  {
    forall i :: 0 <= i < n && Starts(MergeAll(sv, list[..i]), list[i]) ==> start(i) == 0
  }

  lemma StartedNext(sv: seq<Server>, list: seq<Server>, start: nat -> int, n: nat)
    requires n < |list| && Started(sv, list, start, n)
    ensures Started(sv, list, start, n + 1) <==> (Starts(MergeAll(sv, list[..n]), list[n]) ==> start(n) == 0)
  {
  }

  lemma StartedFewer(sv: seq<Server>, list: seq<Server>, start: nat -> int, n: nat, k: nat)
    requires n <= k <= |list| && Started(sv, list, start, k)
    ensures Started(sv, list, start, n)
  {
  }

  /** Entry i brings back a server that was given up, or adds one. */
  ghost predicate NeedsThread(sv: seq<Server>, list: seq<Server>, i: nat)
    requires i < |list|
  {
    var b := list[i];
    || (Server(b.ip, NONE) in sv && b.status !in {NONE, DELETED, WAIT_SYNC, SYNCING})
    || (!Known(sv, b.ip) && b.status != DELETED && |sv| + |Newcomers(sv, list[..i])| < MAX_SERVERS)
  }

  lemma NoneKnown(sv: seq<Server>, k: nat)
    requires Distinct(sv) && k < |sv|
    ensures Server(sv[k].ip, NONE) in sv <==> sv[k].status == NONE
  {
    if sv[k].status == NONE { assert sv[k] == Server(sv[k].ip, NONE); }
  }

  lemma StartsWhen(sv: seq<Server>, list: seq<Server>, i: nat)
    requires Distinct(sv) && Distinct(list) && |sv| <= MAX_SERVERS && i < |list|
    ensures Starts(MergeAll(sv, list[..i]), list[i]) <==> NeedsThread(sv, list, i)
  {
    var rest, b := list[..i], list[i];
    DistinctPrefix(list, i);
    UnlistedKnown(sv, rest, b.ip);
    NewcomersAdded(sv, rest);
    if Known(sv, b.ip) {
      FoundAsBefore(sv, rest, b);
      NoneKnown(sv, SlotOf(MergeAll(sv, rest), b.ip));
    }
    hide MergeAll, SlotOf, Distinct;
  }

  /** The sync threads that a merge has to start can be started. */
  ghost predicate ThreadsStart(sv: seq<Server>, list: seq<Server>, start: nat -> int) {
    forall i :: 0 <= i < |list| && NeedsThread(sv, list, i) ==> start(i) == 0
  }

  lemma StartedWhen(sv: seq<Server>, list: seq<Server>, start: nat -> int)
    requires Distinct(sv) && Distinct(list) && |sv| <= MAX_SERVERS
    ensures Started(sv, list, start, |list|) <==> ThreadsStart(sv, list, start)
  {
    hide Starts, NeedsThread, MergeAll, Distinct;
    forall i | 0 <= i < |list| ensures Starts(MergeAll(sv, list[..i]), list[i]) <==> NeedsThread(sv, list, i) {
      StartsWhen(sv, list, i);
    }
  }

  /** What a merge makes of the known servers: the listed statuses are taken over where they are to be, the others stay,
      and the newcomers follow as far as there is room. */
  ghost predicate Merged(sv: seq<Server>, list: seq<Server>, sv': seq<Server>) {
    && |sv| <= |sv'| <= MAX_SERVERS
    && (forall k :: 0 <= k < |sv| && !Known(list, sv[k].ip) ==> sv'[k] == sv[k])
    && (forall k, i :: 0 <= k < |sv| && 0 <= i < |list| && list[i].ip == sv[k].ip ==>
          && sv'[k].ip == sv[k].ip
          && sv'[k].status == if Accepts(sv[k].status, list[i].status) then list[i].status else sv[k].status)
    && var more := Newcomers(sv, list);
       sv'[|sv|..] == if |sv| + |more| <= MAX_SERVERS then more else more[..MAX_SERVERS - |sv|]
  }

  lemma AllMerged(sv: seq<Server>, list: seq<Server>)
    requires Distinct(sv) && Distinct(list) && |sv| <= MAX_SERVERS
    ensures Merged(sv, list, MergeAll(sv, list))
  {
    NewcomersAdded(sv, list);
    MergeEvolves(sv, list);
    hide MergeAll, Distinct;
    forall k | 0 <= k < |sv|
      ensures !Known(list, sv[k].ip) ==> MergeAll(sv, list)[k] == sv[k]
      ensures forall i :: 0 <= i < |list| && list[i].ip == sv[k].ip ==>
                MergeAll(sv, list)[k].status ==
                if Accepts(sv[k].status, list[i].status) then list[i].status else sv[k].status
    {
      MergedStatus(sv, list, k);
    }
  }

  /** The test after the first pass. */
  predicate CountsMatch(sv: seq<Server>, list: seq<Server>) {
    |MergeAll(sv, list)| + DeletedCount(sv, list) == |list|
  }

  /** What goes back to the tracker: the statuses that were kept and, unless the count test holds, the walk. */
  function Sent(sv: seq<Server>, list: seq<Server>): seq<Server> {
    Kept(sv, list) + if CountsMatch(sv, list) then [] else Walk(list, MergeAll(sv, list))
  }

  ghost predicate HasRoom(sv: seq<Server>, list: seq<Server>) {
    |sv| + NewCount(sv, list) <= MAX_SERVERS
  }

  /** Every known server whose status is newer than listed is sent back as it is, and nothing is sent but servers as
      they are known. */
  ghost predicate SentRight(sv: seq<Server>, list: seq<Server>, sv': seq<Server>, sent: seq<Server>) {
    && (forall k, i :: 0 <= k < |sv| && 0 <= i < |list| && list[i].ip == sv[k].ip ==>
          (Newer(sv[k].status, list[i].status) ==> sv[k] in sent))
    && (forall x :: x in sent ==> x in sv')
  }

  lemma AllSentRight(sv: seq<Server>, list: seq<Server>)
    requires Distinct(sv) && Distinct(list)
    ensures SentRight(sv, list, MergeAll(sv, list), Sent(sv, list))
  {
    var sv', sent := MergeAll(sv, list), Sent(sv, list);
    forall k, i | 0 <= k < |sv| && 0 <= i < |list| && list[i].ip == sv[k].ip && Newer(sv[k].status, list[i].status)
      ensures sv[k] in sent
    {
      KeptExactly(sv, list, sv[k]);
    }
    forall x | x in sent ensures x in sv' {
      if x in Kept(sv, list) { KeptStays(sv, list, x); } else { WalkOnlyKnown(list, sv'); }
    }
  }

  lemma KeptStays(sv: seq<Server>, list: seq<Server>, x: Server)
    requires Distinct(sv) && Distinct(list) && x in Kept(sv, list)
    ensures x in MergeAll(sv, list)
  {
    KeptExactly(sv, list, x);
    assert NewerThanListed(sv, list, x);
    var k :| 0 <= k < |sv| && sv[k] == x;
    MergeEvolves(sv, list);
    MergedStatus(sv, list, k);
    assert MergeAll(sv, list)[k] == x;
  }

  /** What the first pass has computed after n entries. */
  ghost predicate PassedOver(sv: seq<Server>, list: seq<Server>, n: nat, now: seq<Server>, ignored: nat,
                             kept: seq<Server>)
  {
    && n <= |list| && now == MergeAll(sv, list[..n])
    && ignored == DeletedCount(sv, list[..n]) && kept == Kept(sv, list[..n])
  }

  lemma PassNext(sv: seq<Server>, list: seq<Server>, n: nat, now: seq<Server>, ignored: nat, kept: seq<Server>)
    requires PassedOver(sv, list, n, now, ignored, kept) && n < |list|
    ensures var b := list[n];
            PassedOver(sv, list, n + 1, MergeOne(now, b),
                       ignored + (if !Known(now, b.ip) && b.status == DELETED then 1 else 0),
                       kept + if Known(now, b.ip) && Decide(now[SlotOf(now, b.ip)].status, b.status) == Report
                              then [now[SlotOf(now, b.ip)]] else [])
  {
    hide MergeOne, Known;
    assert list[..n + 1][..n] == list[..n] && list[..n + 1][n] == list[n];
  }

  class ServerTable {
    var servers: seq<Server>
    const sorted: array<nat>

    ghost predicate Valid()
      reads this, sorted
    {
      |servers| <= MAX_SERVERS == sorted.Length && TableOk(servers, sorted[..|servers|])
    }

    /** One turn of the first pass; `start` is what storage_sync_thread_start would return. */
    method MergeEntry(b: Server, start: int) returns (err: int, ignored: bool, diff: seq<Server>)
      requires Valid()
      modifies this, sorted
      ensures Valid() && servers == MergeOne(old(servers), b)
      ensures err == if Starts(old(servers), b) then start else 0
      ensures ignored <==> !Known(old(servers), b.ip) && b.status == DELETED
      ensures var sv := old(servers);
              diff == if Known(sv, b.ip) && Decide(sv[SlotOf(sv, b.ip)].status, b.status) == Report
                      then [sv[SlotOf(sv, b.ip)]] else []
    {
      err, ignored, diff := 0, false, [];
      var slot := Search(servers, sorted[..|servers|], b.ip);
      if slot >= 0 {
        TableDistinct(servers, sorted[..|servers|]);
        assert slot == SlotOf(servers, b.ip);
        var cur := servers[slot].status;
        var decision := Decide(cur, b.status);
        if decision == Report {
          diff := [servers[slot]];
        } else if decision == Overwrite {
          StatusKeepsTable(servers, sorted[..|servers|], slot, b.status);
          servers := servers[slot := servers[slot].(status := b.status)];
          if cur == NONE {
            err := start;
          }
        }
      } else if b.status == DELETED {
        ignored := true;
      } else if |servers| < MAX_SERVERS {
        Add(b);
        err := start;
      }
    }

    /** The locked part: the next free slot is filled and its pointer inserted into the index. */
    method Add(b: Server)
      requires Valid() && |servers| < MAX_SERVERS && !Known(servers, b.ip)
      modifies this, sorted
      ensures Valid() && servers == old(servers) + [b]
    {
      var n := |servers|;
      ghost var order := sorted[..n];
      var grown := servers + [b];
      assert Ascending(grown, order);
      var inserted, p := InsertIntoSorted(sorted, n, grown, n);
      InsertKeepsTable(servers, order, b, p);
      servers := grown;
    }

    /** The first pass: it ends early if a sync thread cannot be started. */
    method FirstPass(list: seq<Server>, start: nat -> int)
      returns (err: int, done: nat, ignored: nat, kept: seq<Server>)
      requires Valid()
      modifies this, sorted
      ensures Valid() && PassedOver(old(servers), list, done, servers, ignored, kept)
      ensures err == 0 ==> done == |list| && Started(old(servers), list, start, done)
      ensures err != 0 ==> 0 < done <= |list| && !Started(old(servers), list, start, done)
    {
      ghost var sv := servers;
      err, done, ignored, kept := 0, 0, 0, [];
      assert PassedOver(sv, list, 0, sv, 0, []) && Started(sv, list, start, 0);
      hide MergeOne, Starts, Known, Started, PassedOver;
      while done < |list|
        invariant done <= |list| && Valid() && err == 0
        invariant PassedOver(sv, list, done, servers, ignored, kept) && Started(sv, list, start, done)
      {
        PassNext(sv, list, done, servers, ignored, kept);
        StartedNext(sv, list, start, done);
        PassedMeans(sv, list, done, servers, ignored, kept);
        var skip, diff;
        err, skip, diff := MergeEntry(list[done], start(done));
        if skip {
          ignored := ignored + 1;
        }
        kept := kept + diff;
        done := done + 1;
        if err != 0 {
          return;
        }
      }
    }

    /** tracker_merge_servers, run by one reporter thread alone; `sent` is what goes back to the tracker, and start(i)
        the result of starting a sync thread for entry i. */
    method Merge(list: seq<Server>, start: nat -> int) returns (err: int, sent: seq<Server>)
      requires Valid()
      modifies this, sorted
      ensures Valid() && Evolves(old(servers), servers)
      ensures err == 0 <==> Started(old(servers), list, start, |list|)
      ensures err == 0 ==> servers == MergeAll(old(servers), list) && sent == Sent(old(servers), list)
      ensures err != 0 ==> sent == [] && exists n :: 0 < n <= |list| && servers == MergeAll(old(servers), list[..n])
      ensures Distinct(list) ==> (err == 0 <==> ThreadsStart(old(servers), list, start))
      ensures err == 0 && Distinct(list) ==>
                Merged(old(servers), list, servers) && SentRight(old(servers), list, servers, sent)
      ensures err == 0 && Distinct(list) && HasRoom(old(servers), list) ==>
                forall k :: 0 <= k < |servers| && servers[k].status != NONE && !Known(list, servers[k].ip) ==>
                  servers[k] in sent
      ensures err == 0 && Increasing(list) && (CountsMatch(old(servers), list) || !Overtaken(list, servers)) ==>
                |sent| <= MAX_SERVERS
    {
      hide MergeOne, Starts, Known, Evolves, Started, Overtaken, Merged, SentRight, ThreadsStart;
      ghost var sv := servers;
      TableDistinct(servers, sorted[..|servers|]);
      if Distinct(list) {
        StartedWhen(sv, list, start);
        AllMerged(sv, list);
        AllSentRight(sv, list);
      }
      if Increasing(list) && (CountsMatch(sv, list) || !Overtaken(list, MergeAll(sv, list))) { SentFits(sv, list); }
      var done, ignored;
      err, done, ignored, sent := FirstPass(list, start);
      MergeEvolves(sv, list[..done]);
      if err != 0 {
        if Started(sv, list, start, |list|) { StartedFewer(sv, list, start, done, |list|); }
        sent := [];
        return;
      }
      assert list[..|list|] == list;
      if |servers| + ignored != |list| {
        var more := WalkLists(list, servers);
        sent := sent + more;
      } else {
        assert sent + [] == sent;
      }
      MissingSent(sv, list);
    }
  }

  lemma PassedMeans(sv: seq<Server>, list: seq<Server>, n: nat, now: seq<Server>, ignored: nat, kept: seq<Server>)
    requires PassedOver(sv, list, n, now, ignored, kept)
    ensures n <= |list| && now == MergeAll(sv, list[..n])
  {
  }

  lemma {:induction false} NothingMissing(list: seq<Server>, sv: seq<Server>)
    requires forall k :: 0 <= k < |sv| ==> Known(list, sv[k].ip)
    ensures Missing(list, sv) == []
  {
    if sv != [] { NothingMissing(list, sv[1..]); }
  }

  /** When the count test holds the list has every server known after the first pass. */
  lemma MatchMeansListed(sv: seq<Server>, list: seq<Server>, k: nat)
    requires Distinct(sv) && Distinct(list) && HasRoom(sv, list) && CountsMatch(sv, list) && k < |MergeAll(sv, list)|
    ensures Known(list, MergeAll(sv, list)[k].ip)
  {
    CountTest(sv, list);
    MergeEvolves(sv, list);
    if k >= |sv| { AddedAreListed(sv, list, k); }
  }

  /** Nothing that the tracker lacks is kept from it. */
  lemma MissingSent(sv: seq<Server>, list: seq<Server>)
    ensures Distinct(sv) && Distinct(list) && HasRoom(sv, list) ==>
              var sv' := MergeAll(sv, list);
              forall k :: 0 <= k < |sv'| && sv'[k].status != NONE && !Known(list, sv'[k].ip) ==>
                sv'[k] in Sent(sv, list)
  {
    var sv' := MergeAll(sv, list);
    if Distinct(sv) && Distinct(list) && HasRoom(sv, list) {
      forall k | 0 <= k < |sv'| && sv'[k].status != NONE && !Known(list, sv'[k].ip) ensures sv'[k] in Sent(sv, list) {
        WalkFindsMissing(list, sv', k);
        if CountsMatch(sv, list) { MatchMeansListed(sv, list, k); }
      }
    }
  }

  /** For an ascending list: a merge sends back, beside the kept statuses, exactly the servers that the list lacks, if
      and only if the count test holds or no listed server comes after a known one with a greater address. */
  lemma SentExactIff(sv: seq<Server>, list: seq<Server>)
    requires Distinct(sv) && Increasing(list) && HasRoom(sv, list)
    ensures var sv' := MergeAll(sv, list);
            Sent(sv, list) == Kept(sv, list) + Missing(list, sv') <==> CountsMatch(sv, list) || !Overtaken(list, sv')
  {
    var sv', kept := MergeAll(sv, list), Kept(sv, list);
    MergeEvolves(sv, list);
    WalkExactIff(list, sv');
    if CountsMatch(sv, list) {
      forall k | 0 <= k < |sv'| ensures Known(list, sv'[k].ip) { MatchMeansListed(sv, list, k); }
      NothingMissing(list, sv');
    } else {
      SamePrefix(kept, Walk(list, sv'), Missing(list, sv'));
    }
  }

  lemma SamePrefix(a: seq<Server>, x: seq<Server>, y: seq<Server>)
    ensures a + x == a + y <==> x == y
  {
    assert (a + x)[|a|..] == x && (a + y)[|a|..] == y;
  }

  // ----------------------------------------------------------------- the room in diffServers

  lemma {:induction false} MergeFits(sv: seq<Server>, list: seq<Server>)
    requires |sv| <= MAX_SERVERS
    ensures |MergeAll(sv, list)| <= MAX_SERVERS
    decreases |list|
  {
    if list != [] {
      MergeFits(sv, list[..|list| - 1]);
      MergeOneSize(MergeAll(sv, list[..|list| - 1]), list[|list| - 1]);
    }
  }

  lemma MergeOneAddresses(sv: seq<Server>, b: Server)
    ensures IpSet(sv) <= IpSet(MergeOne(sv, b))
  {
    MergeOneEvolves(sv, b);
    forall ip | ip in IpSet(sv) ensures ip in IpSet(MergeOne(sv, b)) {
      var k :| 0 <= k < |sv| && sv[k].ip == ip;
      assert MergeOne(sv, b)[k].ip == ip;
    }
  }

  /** A kept status is that of a known and listed server. */
  lemma {:induction false} KeptCount(sv: seq<Server>, list: seq<Server>)
    requires Distinct(list)
    ensures |Kept(sv, list)| <= |IpSet(MergeAll(sv, list)) * IpSet(list)|
    decreases |list|
  {
    if list != [] {
      var rest, b := list[..|list| - 1], list[|list| - 1];
      var before := MergeAll(sv, rest);
      assert !Known(rest, b.ip) && list == rest + [b];
      KeptCount(sv, rest);
      CommonSnoc(before, rest, b);
      MergeOneAddresses(before, b);
      hide IpSet, Known, Distinct, MergeOne;
      SubsetSize(IpSet(before) * IpSet(list), IpSet(MergeOne(before, b)) * IpSet(list));
    }
  }

  lemma IpSetCons(b: Server, tail: seq<Server>)
    ensures IpSet([b] + tail) == {b.ip} + IpSet(tail)
  {
    var sv := [b] + tail;
    forall x | x in IpSet(tail) ensures x in IpSet(sv) {
      var k :| 0 <= k < |tail| && tail[k].ip == x;
      assert sv[k + 1].ip == x;
    }
    assert sv[0].ip == b.ip;
  }

  lemma CommonCons(sv: seq<Server>, list: seq<Server>)
    requires sv != [] && Distinct(sv)
    ensures |IpSet(sv) * IpSet(list)| == |IpSet(sv[1..]) * IpSet(list)| + if Known(list, sv[0].ip) then 1 else 0
  {
    var ip, tail := sv[0].ip, sv[1..];
    assert ip !in IpSet(tail);
    assert sv == [sv[0]] + tail;
    hide IpSet, Known, Distinct;
    IpSetCons(sv[0], tail);
    InIpSet(list, ip);
    var common := IpSet(tail) * IpSet(list);
    assert IpSet(sv) * IpSet(list) == if Known(list, ip) then common + {ip} else common;
  }

  lemma {:induction false} MissingCount(list: seq<Server>, sv: seq<Server>)
    requires Distinct(sv)
    ensures |Missing(list, sv)| + |IpSet(sv) * IpSet(list)| <= |sv|
  {
    if sv == [] {
      assert IpSet(sv) * IpSet(list) == {};
    } else {
      MissingCount(list, sv[1..]);
      CommonCons(sv, list);
    }
  }

  lemma DistinctList(list: seq<Server>)
    requires Increasing(list)
    ensures Distinct(list)
  {
  }

  /** Kept and missing servers together are no more than the known ones, so diffServers has room for them: for an
      ascending list all that is sent fits if the count test holds or no listed server is overtaken. */
  lemma SentFits(sv: seq<Server>, list: seq<Server>)
    requires Distinct(sv) && |sv| <= MAX_SERVERS && Increasing(list)
    requires CountsMatch(sv, list) || !Overtaken(list, MergeAll(sv, list))
    ensures |Sent(sv, list)| <= |MergeAll(sv, list)| <= MAX_SERVERS
  {
    var sv' := MergeAll(sv, list);
    MergeFits(sv, list);
    MergeEvolves(sv, list);
    DistinctList(list);
    KeptCount(sv, list);
    MissingCount(list, sv');
    if !CountsMatch(sv, list) { WalkExactIff(list, sv'); }
  }

  /** How many known servers the walk passes without sending them: NONE ones, and those it meets in the list. */
  function Met(list: seq<Server>, sv: seq<Server>): nat
    decreases |list| + |sv|
  {
    if sv == [] then 0
    else if sv[0].status == NONE then 1 + Met(list, sv[1..])
    else if list == [] || sv[0].ip < list[0].ip then Met(list, sv[1..])
    else if list[0].ip < sv[0].ip then Met(list[1..], sv)
    else 1 + Met(list[1..], sv[1..])
  }

  lemma {:induction false} WalkCount(list: seq<Server>, sv: seq<Server>)
    ensures |Walk(list, sv)| + Met(list, sv) == |sv|
    decreases |list| + |sv|
  {
    if sv != [] {
      if sv[0].status == NONE || list == [] || sv[0].ip < list[0].ip {
        WalkCount(list, sv[1..]);
      } else if list[0].ip < sv[0].ip {
        WalkCount(list[1..], sv);
      } else {
        WalkCount(list[1..], sv[1..]);
      }
    }
  }

  /** All that is sent fits diffServers if and only if the count test holds, or the statuses kept are no more than the
      servers that the walk passes and the slots that the table leaves free. */
  lemma SentFitsIff(sv: seq<Server>, list: seq<Server>)
    requires Distinct(sv) && |sv| <= MAX_SERVERS && Distinct(list)
    ensures var sv' := MergeAll(sv, list);
            |Sent(sv, list)| <= MAX_SERVERS <==>
              CountsMatch(sv, list) || |Kept(sv, list)| <= Met(list, sv') + (MAX_SERVERS - |sv'|)
  {
    var sv' := MergeAll(sv, list);
    MergeFits(sv, list);
    MergeEvolves(sv, list);
    KeptCount(sv, list);
    MissingCount(list, sv');
    WalkCount(list, sv');
  }

  /** The list says of each of its servers what the merge does not take over. */
  ghost predicate AllReported(sv: seq<Server>, list: seq<Server>) {
    forall i :: 0 <= i < |list| ==>
      Known(sv, list[i].ip) && Decide(sv[SlotOf(sv, list[i].ip)].status, list[i].status) == Report
  }

  lemma {:induction false} AllKept(sv: seq<Server>, list: seq<Server>)
    requires AllReported(sv, list)
    ensures MergeAll(sv, list) == sv && DeletedCount(sv, list) == 0 && |Kept(sv, list)| == |list|
    decreases |list|
  {
    if list != [] {
      var b := list[|list| - 1];
      AllKept(sv, list[..|list| - 1]);
      assert Known(sv, b.ip) && Decide(sv[SlotOf(sv, b.ip)].status, b.status) == Report;
      hide SlotOf, Known, Decide;
    }
  }

  lemma {:induction false} WalkAll(list: seq<Server>, sv: seq<Server>)
    requires forall k :: 0 <= k < |sv| ==> sv[k].status != NONE
    requires forall i :: 0 <= i < |list| ==> sv != [] && list[i].ip < sv[0].ip
    ensures Walk(list, sv) == sv
    decreases |list| + |sv|
  {
    if sv != [] {
      if list == [] { WalkAll(list, sv[1..]); } else { WalkAll(list[1..], sv); }
    }
  }

  /** The servers known in descending order, and the others listed as SYNCING. */
  function Descending(n: nat): seq<Server> {
    seq(n, i => Server(n - 1 - i, 6))
  }

  function Below(n: nat): seq<Server>
    requires n > 0
  {
    seq(n - 1, i => Server(i, SYNCING))
  }

  lemma DescendingSent(n: nat)
    requires n > 0
    ensures |Sent(Descending(n), Below(n))| == 2 * n - 1
  {
    var sv, list := Descending(n), Below(n);
    forall i | 0 <= i < |list|
      ensures Known(sv, list[i].ip) && Decide(sv[SlotOf(sv, list[i].ip)].status, list[i].status) == Report
    {
      assert sv[n - 1 - i].ip == i;
    }
    AllKept(sv, list);
    WalkAll(list, sv);
  }

  /** A full table, whose statuses are newer than the tracker's: 63 entries are written to the 32 slots. */
  lemma SentOverruns()
    ensures var sv, list := Descending(MAX_SERVERS), Below(MAX_SERVERS);
            Distinct(sv) && Increasing(list) && |sv| == MAX_SERVERS && |Sent(sv, list)| == 63
  {
    DescendingSent(MAX_SERVERS);
  }

  // ----------------------------------------------------------------- a list in another order

  /** Known servers in order of arrival: the tracker lacks only c, and a, which it listed, is sent back too. */
  lemma ArrivalOrder()
    ensures var a, b, c := Server(1, 6), Server(2, 6), Server(3, 6);
            && MergeAll([b, a, c], [a, b]) == [b, a, c] && !CountsMatch([b, a, c], [a, b])
            && Sent([b, a, c], [a, b]) == [a, c] && Missing([a, b], [b, a, c]) == [c]
  {
    var a, b, c := Server(1, 6), Server(2, 6), Server(3, 6);
    var sv, list := [b, a, c], [a, b];
    assert sv[1].ip == 1 && sv[0].ip == 2 && Known(sv, 1) && Known(sv, 2);
    assert list[0].ip == 1 && list[1].ip == 2 && Known(list, 1) && Known(list, 2) && !Known(list, 3);
    assert list[..1] == [a] && [a][..0] == [];
    assert MergeAll(sv, []) == sv && DeletedCount(sv, []) == 0 && Kept(sv, []) == [];
    assert SlotOf(sv, 2) == 0 && sv[SlotOf(sv, 1)] == a;
    assert MergeAll(sv, [a]) == sv && DeletedCount(sv, [a]) == 0 && Kept(sv, [a]) == [];
    assert MergeAll(sv, list) == sv && DeletedCount(sv, list) == 0 && Kept(sv, list) == [];
    assert list[1..] == [b] && sv[1..] == [a, c] && [b][1..] == [] && [a, c][1..] == [c] && [c][1..] == [];
    assert Walk(list, sv) == Walk([b], sv) == Walk([], [a, c]);
    assert Walk([], [a, c]) == [a] + Walk([], [c]) && Walk([], [c]) == [c] + Walk([], []);
    assert Missing(list, sv) == Missing(list, [a, c]) == Missing(list, [c]) == [c] + Missing(list, []);
  }
}
