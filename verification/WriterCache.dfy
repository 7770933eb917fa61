/** The query-writer cache of weixinuser/rb.php: invalidated only by looking at the text of the last SQL statement.

    The database is any value D and the database server any function from a database and a query to rows R; which
    text a query has before its closing marker, and which link table joins two types, are parameters too.
    json_encode, which makes the cache keys, is taken to be injective: a key is a structured value. */
module WriterCache {

  const MARK := "-- keep-cache"

  type Conditions = map<string, seq<string>>

  /** A call of queryRecord, queryRecordRelated, queryRecordLinks or queryRecordLink. */
  datatype Query =
    | Record(typ: string, conditions: Conditions, addSql: string, bindings: seq<string>)
    | Related(source: string, dest: string, ids: seq<string>, addSql: string, bindings: seq<string>)
    | Links(source: string, dest: string, ids: seq<string>, addSql: string, bindings: seq<string>)
    | Link(source: string, dest: string, sourceId: string, destId: string)

  /** What getCacheKey is given; queryRecordRelated and queryRecordLinks give it the same. */
  datatype Key =
    | RecordKey(conditions: Conditions, addSql: string, bindings: seq<string>)
    | LinksKey(source: string, dest: string, ids: string, addSql: string, bindings: seq<string>)
    | LinkKey(source: string, dest: string, sourceId: string, destId: string)

  /** The world around the writer. */
  datatype Env<!D, !R> = Env(
    eval: (D, Query) -> R,
    text: Query -> string,
    linkTable: (string, string) -> string,
    falsy: R -> bool)

  /** The writer, its adapter and the database; `outdated` is history: the tags of the entries that were stored before
      the database last changed. */
  datatype State<D, R> = State(db: D, sql: string, cache: map<string, (Key, R)>, useCache: bool, outdated: set<string>)

  // ----------------------------------------------------------------- keys

  /** implode(',', ids) */
  function Implode(ids: seq<string>): string {
    if |ids| == 0 then "" else if |ids| == 1 then ids[0] else ids[0] + "," + Implode(ids[1..])
  }

  function KeyOf(q: Query): Key {
    match q
    case Record(_, c, a, b) => RecordKey(c, a, b)
    case Related(s, d, ids, a, b) => LinksKey(s, d, Implode(ids), a, b)
    case Links(s, d, ids, a, b) => LinksKey(s, d, Implode(ids), a, b)
    case Link(s, d, i, j) => LinkKey(s, d, i, j)
  }

  function TagOf<D, R>(e: Env<D, R>, q: Query): string {
    match q
    case Record(t, _, _, _) => t
    case Related(_, d, _, _, _) => d
    case Links(s, d, _, _, _) => e.linkTable(s, d)
    case Link(s, d, _, _) => e.linkTable(s, d)
  }

  /** Identifiers as the primary keys of a table are: not empty, no comma. */
  predicate PlainIds(ids: seq<string>) {
    forall i :: 0 <= i < |ids| ==> ids[i] != "" && ',' !in ids[i]
  }

  /** A query whose key and tag tell it apart: plain identifiers, and no link table that has the name of the type. */
  predicate Plain<D, R>(e: Env<D, R>, q: Query) {
    && (q.Links? || q.Related? ==> PlainIds(q.ids))
    && (q.Related? ==> e.linkTable(q.source, q.dest) != q.dest)
  }

  /** The part of a string before its first comma. */
  function UpToComma(s: string): (n: nat)
    ensures n <= |s| && ',' !in s[..n] && (n < |s| ==> s[n] == ',')
  {
    if s == "" || s[0] == ',' then 0
    else
      assert forall n :: 0 <= n <= |s[1..]| ==> s[..n + 1] == [s[0]] + s[1..][..n];
      1 + UpToComma(s[1..])
  }

  lemma FirstComma(s: string, n: nat)
    requires n <= |s| && ',' !in s[..n] && (n < |s| ==> s[n] == ',')
    ensures n == UpToComma(s)
  {
  }

  lemma ImplodeHead(ids: seq<string>)
    requires ids != [] && PlainIds(ids)
    ensures var s, n := Implode(ids), |ids[0]|;
            && UpToComma(s) == n && s[..n] == ids[0]
            && (|ids| == 1 <==> n == |s|)
            && (|ids| > 1 ==> s[n + 1..] == Implode(ids[1..]))
  {
    FirstComma(Implode(ids), |ids[0]|);
  }

  lemma NonEmpty(ids: seq<string>)
    requires PlainIds(ids)
    ensures Implode(ids) == "" <==> ids == []
  {
    if ids != [] { ImplodeHead(ids); }
  }

  /** Plain identifiers can be read back from their imploded form. */
  lemma {:induction false} ImplodeInjective(a: seq<string>, b: seq<string>)
    requires PlainIds(a) && PlainIds(b) && Implode(a) == Implode(b)
    ensures a == b
  {
    NonEmpty(a);
    NonEmpty(b);
    if a != [] && b != [] {
      ImplodeHead(a);
      ImplodeHead(b);
      if |a| > 1 { ImplodeInjective(a[1..], b[1..]); }
      assert a == [a[0]] + a[1..] && b == [b[0]] + b[1..];
    }
  }

  /** Two plain queries with the same tag and key are the same query. */
  lemma SameKeySameQuery<D, R>(e: Env<D, R>, p: Query, q: Query)
    requires Plain(e, p) && Plain(e, q) && KeyOf(p) == KeyOf(q) && TagOf(e, p) == TagOf(e, q)
    ensures p == q
  {
    if p.Links? || p.Related? { ImplodeInjective(p.ids, q.ids); }
  }

  predicate WordChar(c: char) {
    'a' <= c <= 'z' || 'A' <= c <= 'Z' || '0' <= c <= '9' || c == '_'
  }

  /** esc puts a quote character around the link table's name and lets only word characters through as a type, so the
      two are never the same. */
  lemma QuotedDiffers(linkTable: string, dest: string)
    requires linkTable != "" && !WordChar(linkTable[0]) && forall i :: 0 <= i < |dest| ==> WordChar(dest[i])
    ensures linkTable != dest
  {
    assert dest != "" ==> WordChar(dest[0]);
  }

  /** Identifiers with commas are not told apart. */
  lemma CommasCollide(s: string, d: string, a: string, b: seq<string>)
    ensures var p, q := Links(s, d, ["1,2"], a, b), Links(s, d, ["1", "2"], a, b);
            KeyOf(p) == KeyOf(q) && p != q
  {
    assert Implode(["1", "2"]) == "1" + "," + Implode(["2"]) by { assert ["1", "2"][1..] == ["2"]; }
    assert "1" + "," + "2" == "1,2";
    assert ["1,2"] != ["1", "2"];
  }

  // ----------------------------------------------------------------- the writer's operations

  predicate MarkAt(sql: string, i: nat) {
    i + |MARK| <= |sql| && sql[i..i + |MARK|] == MARK
  }

  /** strpos($sql, '-- keep-cache') === strlen($sql) - 13: the first occurrence is at the very end. */
  predicate KeepsCache(sql: string) {
    && |sql| >= |MARK| && sql[|sql| - |MARK|..] == MARK
    && forall i :: 0 <= i < |sql| - |MARK| ==> !MarkAt(sql, i)
  }

  /** A statement with the marker before its end as well does not keep the cache. */
  lemma MarkedTwice(a: string, b: string)
    ensures !KeepsCache(a + MARK + b + MARK)
  {
    var sql := a + MARK + b + MARK;
    assert sql[|a|..|a| + |MARK|] == MARK;
    assert MarkAt(sql, |a|);
  }

  function SqlOf<D, R>(e: Env<D, R>, q: Query): string {
    e.text(q) + MARK
  }

  /** getCached finds something and PHP takes it for true. */
  predicate Hit<D, R>(e: Env<D, R>, w: State<D, R>, q: Query) {
    var tag := TagOf(e, q);
    w.useCache && KeepsCache(w.sql) && tag in w.cache && w.cache[tag].0 == KeyOf(q) && !e.falsy(w.cache[tag].1)
  }

  /** One of the four query functions: the new state and the rows returned.
      queryRecord stores only while the cache is in use, the others always. */
  function Ask<D, R>(e: Env<D, R>, w: State<D, R>, q: Query): (State<D, R>, R) {
    if Hit(e, w, q) then (w, w.cache[TagOf(e, q)].1)
    else
      var rows := e.eval(w.db, q);
      var flushed := if w.useCache && !KeepsCache(w.sql) then w.(cache := map[], outdated := {}) else w;
      (Stored(flushed, q, TagOf(e, q), rows).(sql := SqlOf(e, q)), rows)
  }

  function Stored<D, R>(w: State<D, R>, q: Query, tag: string, rows: R): State<D, R> {
    if q.Record? && !w.useCache then w
    else w.(cache := w.cache[tag := (KeyOf(q), rows)], outdated := w.outdated - {tag})
  }

  datatype Op<D> =
    | Run(q: Query)                 // one of the cached queries
    | Exec(sql: string, after: D)   // any other statement through the adapter
    | Silent(after: D)              // a change that leaves the last SQL alone: exec without event, a rollback
    | SetUseCache(yes: bool)

  ghost function Perform<D, R>(e: Env<D, R>, w: State<D, R>, op: Op<D>): State<D, R> {
    match op
    case Run(q) => Ask(e, w, q).0
    case Exec(sql, after) => Changed(w, after).(sql := sql)
    case Silent(after) => Changed(w, after)
    case SetUseCache(yes) => w.(cache := map[], useCache := yes, outdated := {})
  }

  ghost function Changed<D, R>(w: State<D, R>, after: D): State<D, R> {
    w.(db := after, outdated := if after == w.db then w.outdated else w.cache.Keys)
  }

  // ----------------------------------------------------------------- the cache is never stale

  /** What an entry says of a plain query that could be answered from it is what the database would answer. */
  ghost predicate Current<D, R>(e: Env<D, R>, w: State<D, R>, q: Query) {
    TagOf(e, q) in w.cache && TagOf(e, q) !in w.outdated && w.cache[TagOf(e, q)].0 == KeyOf(q) ==>
      w.cache[TagOf(e, q)].1 == e.eval(w.db, q)
  }

  ghost predicate Inv<D, R>(e: Env<D, R>, w: State<D, R>) {
    forall q :: Plain(e, q) ==> Current(e, w, q)
  }

  /** The query is plain and is not answered from an entry older than the database. */
  predicate Fresh<D, R>(e: Env<D, R>, w: State<D, R>, q: Query) {
    Plain(e, q) && (Hit(e, w, q) ==> TagOf(e, q) !in w.outdated)
  }

  lemma AskKeeps<D, R>(e: Env<D, R>, w: State<D, R>, q: Query, p: Query)
    requires Current(e, w, p) && Plain(e, p) && Plain(e, q)
    ensures Current(e, Ask(e, w, q).0, p)
  {
    if TagOf(e, p) == TagOf(e, q) && KeyOf(p) == KeyOf(q) {
      SameKeySameQuery(e, p, q);
    }
  }

  lemma AskFresh<D, R>(e: Env<D, R>, w: State<D, R>, q: Query)
    requires Inv(e, w) && Fresh(e, w, q)
    ensures Inv(e, Ask(e, w, q).0) && Ask(e, w, q).1 == e.eval(w.db, q) && Ask(e, w, q).0.db == w.db
  {
    assert Current(e, w, q);
    forall p | Plain(e, p) ensures Current(e, Ask(e, w, q).0, p) {
      AskKeeps(e, w, q, p);
    }
  }

  lemma PerformKeeps<D, R>(e: Env<D, R>, w: State<D, R>, op: Op<D>)
    requires Inv(e, w) && (op.Run? ==> Fresh(e, w, op.q))
    ensures Inv(e, Perform(e, w, op))
  {
    if op.Run? {
      AskFresh(e, w, op.q);
    } else {
      forall p | Plain(e, p) ensures Current(e, Perform(e, w, op), p) {
        assert Current(e, w, p);
      }
    }
  }

  ghost function After<D, R>(e: Env<D, R>, w: State<D, R>, ops: seq<Op<D>>): State<D, R> {
    if ops == [] then w else Perform(e, After(e, w, ops[..|ops| - 1]), ops[|ops| - 1])
  }

  ghost predicate AllFresh<D, R>(e: Env<D, R>, w: State<D, R>, ops: seq<Op<D>>) {
    ops == [] ||
    var before, op := After(e, w, ops[..|ops| - 1]), ops[|ops| - 1];
    AllFresh(e, w, ops[..|ops| - 1]) && (op.Run? ==> Fresh(e, before, op.q))
  }

  lemma {:induction false} RunInv<D, R>(e: Env<D, R>, w: State<D, R>, ops: seq<Op<D>>)
    requires Inv(e, w) && AllFresh(e, w, ops)
    ensures Inv(e, After(e, w, ops))
  {
    if ops != [] {
      RunInv(e, w, ops[..|ops| - 1]);
      PerformKeeps(e, After(e, w, ops[..|ops| - 1]), ops[|ops| - 1]);
    }
  }

  /** The lemma behind CarefulAgrees: after any run of queries, statements, silent changes and toggles from an empty
      cache a query returns what the database would return at that moment, unless it or an earlier one was answered
      from an outdated entry. */
  lemma CacheAgrees<D, R>(e: Env<D, R>, w: State<D, R>, ops: seq<Op<D>>, q: Query)
    requires w.cache == map[] && AllFresh(e, w, ops) && Fresh(e, After(e, w, ops), q)
    ensures var now := After(e, w, ops); Ask(e, now, q).1 == e.eval(now.db, q)
  {
    assert Inv(e, w);
    RunInv(e, w, ops);
    AskFresh(e, After(e, w, ops), q);
  }

  // ----------------------------------------------------------------- what the last SQL statement has to tell

  /** What the look at the last SQL statement is for: where it lets the cache stand, no entry is outdated. */
  predicate Trusted<D, R>(w: State<D, R>) {
    w.useCache && KeepsCache(w.sql) ==> w.outdated == {}
  }

  /** Nobody but the queries changes the cached rows behind the marker: a marked statement or a silent change after a
      marked one leaves the database as it is, or finds the cache empty, and a marked statement finds no entry
      outdated. */
  ghost predicate Careful<D, R>(e: Env<D, R>, w: State<D, R>, op: Op<D>) {
    match op
    case Run(q) => Plain(e, q)
    case Exec(sql, after) =>
      w.useCache && KeepsCache(sql) ==> w.cache == map[] || (after == w.db && w.outdated == {})
    case Silent(after) => w.useCache && KeepsCache(w.sql) ==> w.cache == map[] || after == w.db
    case SetUseCache(_) => true
  }

  /** Outdated entries are entries. */
  ghost predicate Tagged<D, R>(w: State<D, R>) {
    w.outdated <= w.cache.Keys
  }

  lemma CarefulStep<D, R>(e: Env<D, R>, w: State<D, R>, op: Op<D>)
    requires Trusted(w) && Tagged(w) && Careful(e, w, op)
    ensures Trusted(Perform(e, w, op)) && Tagged(Perform(e, w, op))
    ensures op.Run? ==> Fresh(e, w, op.q)
  {
  }

  ghost predicate AllCareful<D, R>(e: Env<D, R>, w: State<D, R>, ops: seq<Op<D>>) {
    ops == [] ||
    (AllCareful(e, w, ops[..|ops| - 1]) && Careful(e, After(e, w, ops[..|ops| - 1]), ops[|ops| - 1]))
  }

  lemma {:induction false} CarefulRun<D, R>(e: Env<D, R>, w: State<D, R>, ops: seq<Op<D>>)
    requires w.cache == map[] && w.outdated == {} && AllCareful(e, w, ops)
    ensures Trusted(After(e, w, ops)) && Tagged(After(e, w, ops)) && AllFresh(e, w, ops)
  {
    if ops != [] {
      CarefulRun(e, w, ops[..|ops| - 1]);
      CarefulStep(e, After(e, w, ops[..|ops| - 1]), ops[|ops| - 1]);
      hide Careful, Perform;
    }
  }

  /** So after any careful run from an empty cache every plain query returns what the database would return then. */
  lemma CarefulAgrees<D, R>(e: Env<D, R>, w: State<D, R>, ops: seq<Op<D>>, q: Query)
    requires w.cache == map[] && w.outdated == {} && AllCareful(e, w, ops) && Plain(e, q)
    ensures var now := After(e, w, ops); Ask(e, now, q).1 == e.eval(now.db, q)
  {
    CarefulRun(e, w, ops);
    CarefulStep(e, After(e, w, ops), Run(q));
    CacheAgrees(e, w, ops, q);
  }

  /** And the cache does its work: asked again at once, a query with rows is not sent to the database. */
  lemma SecondAskHits<D, R>(e: Env<D, R>, w: State<D, R>, q: Query)
    requires w.useCache && KeepsCache(SqlOf(e, q)) && !e.falsy(e.eval(w.db, q)) && !Hit(e, w, q)
    ensures var w' := Ask(e, w, q).0; Hit(e, w', q) && Ask(e, w', q) == (w', e.eval(w.db, q))
  {
  }

  // ----------------------------------------------------------------- when it is stale

  /** The entry under the query's tag has its key and is true for PHP. */
  predicate Held<D, R>(e: Env<D, R>, w: State<D, R>, q: Query) {
    var tag := TagOf(e, q);
    tag in w.cache && w.cache[tag].0 == KeyOf(q) && !e.falsy(w.cache[tag].1)
  }

  /** Whatever a statement makes of the database, and whatever the server says of it, the query asked next is answered
      rightly. */
  ghost predicate RightAfter<D(!new), R(!new)>(e: Env<D, R>, w: State<D, R>, op: D -> Op<D>, q: Query) {
    forall eval: (D, Query) -> R, after: D ::
      Ask(e.(eval := eval), Perform(e, w, op(after)), q).1 == eval(after, q)
  }

  lemma MissIsRight<D, R>(e: Env<D, R>, w: State<D, R>, q: Query)
    ensures Ask(e, w, q).1 == if Hit(e, w, q) then w.cache[TagOf(e, q)].1 else e.eval(w.db, q)
  {
  }

  lemma RightAfterIff<D(!new), R(!new)>(
    e: Env<D, R>, w: State<D, R>, sql: string, op: D -> Op<D>, q: Query, r1: R, r2: R)
    requires r1 != r2
    requires forall after :: op(after) == Exec(sql, after) || (op(after) == Silent(after) && sql == w.sql)
    ensures RightAfter(e, w, op, q) <==> !w.useCache || !KeepsCache(sql) || !Held(e, w, q)
  {
    if w.useCache && KeepsCache(sql) && Held(e, w, q) {
      var rows := w.cache[TagOf(e, q)].1;
      var other := if rows == r1 then r2 else r1;
      var eval: (D, Query) -> R := (d, x) => other;
      MissIsRight(e.(eval := eval), Perform(e, w, op(w.db)), q);
      assert Ask(e.(eval := eval), Perform(e, w, op(w.db)), q).1 != eval(w.db, q);
    }
  }

  /** A statement of the user's own is harmless to the query asked next if and only if the cache is not in use, the
      statement does not end in the marker, or the tag's entry has another key or no rows. */
  lemma StatementIff<D(!new), R(!new)>(e: Env<D, R>, w: State<D, R>, sql: string, q: Query, r1: R, r2: R)
    requires r1 != r2
    ensures RightAfter(e, w, after => Exec(sql, after), q) <==> !w.useCache || !KeepsCache(sql) || !Held(e, w, q)
  {
    RightAfterIff(e, w, sql, after => Exec(sql, after), q, r1, r2);
  }

  /** A rollback, and a statement sent without event, are judged by the statement before them. */
  lemma SilentIff<D(!new), R(!new)>(e: Env<D, R>, w: State<D, R>, q: Query, r1: R, r2: R)
    requires r1 != r2
    ensures RightAfter(e, w, after => Silent(after), q) <==> !w.useCache || !KeepsCache(w.sql) || !Held(e, w, q)
  {
    RightAfterIff(e, w, w.sql, after => Silent(after), q, r1, r2);
  }

  /** A run that goes wrong: a marked SELECT after a write makes the writer trust what it cached before. */
  lemma MarkedAfterWrite<D, R>(e: Env<D, R>, w: State<D, R>, q: Query, write: string, after: D, marked: string)
    requires w.useCache && KeepsCache(SqlOf(e, q)) && !Hit(e, w, q) && KeepsCache(marked)
    requires e.eval(after, q) != e.eval(w.db, q) && !e.falsy(e.eval(w.db, q))
    ensures var w' := After(e, w, [Run(q), Exec(write, after), Exec(marked, after)]);
            w'.db == after && Ask(e, w', q).1 != e.eval(after, q)
  {
    var a, b, c := Run(q), Exec(write, after), Exec(marked, after);
    assert [a, b, c][..2] == [a, b] && [a, b][..1] == [a] && [a][..0] == [];
    assert After(e, w, [a]) == Ask(e, w, q).0;
    assert After(e, w, [a, b]) == Perform(e, After(e, w, [a]), b);
  }

  /** So does a rollback, or a statement without event, right after a cached query. */
  lemma SilentAfterQuery<D, R>(e: Env<D, R>, w: State<D, R>, q: Query, after: D)
    requires w.useCache && KeepsCache(SqlOf(e, q)) && !Hit(e, w, q)
    requires e.eval(after, q) != e.eval(w.db, q) && !e.falsy(e.eval(w.db, q))
    ensures var w' := After(e, w, [Run(q), Silent(after)]); w'.db == after && Ask(e, w', q).1 != e.eval(after, q)
  {
    var a, b := Run(q), Silent(after);
    assert [a, b][..1] == [a] && [a][..0] == [];
    assert After(e, w, [a]) == Ask(e, w, q).0;
  }

  /** And one that does not: a marked SELECT after an unmarked one is careful. */
  lemma MarkedAfterSelect<D, R>(e: Env<D, R>, w: State<D, R>, q: Query, select: string, marked: string)
    requires w.cache == map[] && w.outdated == {} && Plain(e, q)
    ensures AllCareful(e, w, [Run(q), Exec(select, w.db), Exec(marked, w.db)])
  {
    var a, b, c := Run(q), Exec(select, w.db), Exec(marked, w.db);
    assert [a, b, c][..2] == [a, b] && [a, b][..1] == [a] && [a][..0] == [];
    assert After(e, w, [a]) == Ask(e, w, q).0;
    assert After(e, w, [a, b]) == Perform(e, After(e, w, [a]), b);
    assert AllCareful(e, w, [a]) && AllCareful(e, w, [a, b]);
  }

  /** esc has put quotes around the link table's name. */
  ghost predicate Quoted<D, R>(e: Env<D, R>) {
    forall s, d :: e.linkTable(s, d) != d
  }

  /** The second of two queries with one tag is answered rightly, from an empty cache. */
  ghost predicate SecondRight<D(!new), R(!new)>(p: Query, q: Query) {
    forall e: Env<D, R>, w: State<D, R> :: Quoted(e) && w.cache == map[] && TagOf(e, p) == TagOf(e, q) ==>
      Ask(e, Ask(e, w, p).0, q).1 == e.eval(w.db, q)
  }

  /** Queries that never have one tag: records of two types, and a related query beside one for the links. */
  predicate Apart(p: Query, q: Query) {
    || (p.Record? && q.Record? && p.typ != q.typ)
    || (p.Related? && q.Links?)
    || (p.Links? && q.Related?)
  }

  lemma SecondOther<D, R>(e: Env<D, R>, w: State<D, R>, p: Query, q: Query)
    requires Quoted(e) && w.cache == map[] && TagOf(e, p) == TagOf(e, q)
    requires p == q || KeyOf(p) != KeyOf(q) || Apart(p, q)
    ensures Ask(e, Ask(e, w, p).0, q).1 == e.eval(w.db, q)
  {
  }

  /** A world in which p and q give different rows. */
  function Telling<D, R(!new)>(p: Query, r1: R, r2: R): Env<D, R> {
    Env((_, x) => if x == p then r1 else r2, _ => "", (_, dest) => "`" + dest + "`", _ => false)
  }

  function Unused<D, R>(d: D): State<D, R> {
    State(d, "", map[], true, {})
  }

  /** Two names for one entry: there the second query gets the rows of the first. */
  lemma SecondWrong<D(!new), R(!new)>(d: D, r1: R, r2: R, p: Query, q: Query)
    requires r1 != r2 && p != q && KeyOf(p) == KeyOf(q) && !Apart(p, q)
    ensures var e, w := Telling<D, R>(p, r1, r2), Unused<D, R>(d);
            Quoted(e) && TagOf(e, p) == TagOf(e, q) && Ask(e, Ask(e, w, p).0, q).1 != e.eval(w.db, q)
  {
    assert KeepsCache("" + MARK);
    assert forall s: string, dest: string :: |Telling<D, R>(p, r1, r2).linkTable(s, dest)| == |dest| + 2;
  }

  lemma SecondRightIs<D(!new), R(!new)>(e: Env<D, R>, w: State<D, R>, p: Query, q: Query)
    requires SecondRight<D, R>(p, q) && Quoted(e) && w.cache == map[] && TagOf(e, p) == TagOf(e, q)
    ensures Ask(e, Ask(e, w, p).0, q).1 == e.eval(w.db, q)
  {
    hide Ask, TagOf, Quoted;
  }

  lemma AlwaysRight<D(!new), R(!new)>(p: Query, q: Query)
    requires p == q || KeyOf(p) != KeyOf(q) || Apart(p, q)
    ensures SecondRight<D, R>(p, q)
  {
    hide Ask, TagOf, KeyOf, Quoted, Apart;
    forall e: Env<D, R>, w: State<D, R> | Quoted(e) && w.cache == map[] && TagOf(e, p) == TagOf(e, q)
      ensures Ask(e, Ask(e, w, p).0, q).1 == e.eval(w.db, q)
    {
      SecondOther(e, w, p, q);
    }
  }

  lemma SometimesWrong<D(!new), R(!new)>(d: D, r1: R, r2: R, p: Query, q: Query)
    requires r1 != r2 && p != q && KeyOf(p) == KeyOf(q) && !Apart(p, q)
    ensures !SecondRight<D, R>(p, q)
  {
    hide Ask, TagOf, KeyOf, SecondRight, Quoted, Apart, Telling;
    if SecondRight<D, R>(p, q) {
      SecondWrong(d, r1, r2, p, q);
      SecondRightIs(Telling<D, R>(p, r1, r2), Unused<D, R>(d), p, q);
    }
  }

  /** The second of two queries with one tag is answered rightly in every world if and only if they are one query, or
      their keys differ, or they never have one tag. */
  lemma CollisionIff<D(!new), R(!new)>(d: D, r1: R, r2: R, p: Query, q: Query)
    requires r1 != r2
    ensures SecondRight<D, R>(p, q) <==> p == q || KeyOf(p) != KeyOf(q) || Apart(p, q)
  {
    hide SecondRight, KeyOf, Apart;
    if p == q || KeyOf(p) != KeyOf(q) || Apart(p, q) {
      AlwaysRight<D, R>(p, q);
    } else {
      SometimesWrong(d, r1, r2, p, q);
    }
  }

  /** The keys collide for identifiers with commas; queryRecordRelated and queryRecordLinks share their keys too, but
      not their tags. */
  lemma SharedKeys(s: string, d: string, a: string, b: seq<string>, ids: seq<string>)
    ensures KeyOf(Links(s, d, ["1,2"], a, b)) == KeyOf(Links(s, d, ["1", "2"], a, b))
    ensures Links(s, d, ["1,2"], a, b) != Links(s, d, ["1", "2"], a, b)
    ensures KeyOf(Related(s, d, ids, a, b)) == KeyOf(Links(s, d, ids, a, b))
  {
    CommasCollide(s, d, a, b);
  }

  // ----------------------------------------------------------------- the objects

  class Writer<D(!new), R(!new)> {
    const env: Env<D, R>
    var db: D
    var sql: string                       // the adapter's last SQL
    var cache: map<string, (Key, R)>
    var flagUseCache: bool
    ghost var outdated: set<string>

    constructor (e: Env<D, R>, database: D)
      ensures env == e && View() == State(database, "", map[], false, {}) && Inv(env, View())
    {
      env, db, sql, cache, flagUseCache, outdated := e, database, "", map[], false, {};
    }

    ghost function View(): State<D, R>
      reads this
    {
      State(db, sql, cache, flagUseCache, outdated)
    }

    /** getCached; None stands for NULL. */
    method GetCached(tag: string, key: Key) returns (found: bool, rows: seq<R>)
      modifies this`cache, this`outdated
      ensures cache == if KeepsCache(sql) then old(cache) else map[]
      ensures outdated == if KeepsCache(sql) then old(outdated) else {}
      ensures found <==> KeepsCache(sql) && tag in old(cache) && old(cache)[tag].0 == key
      ensures rows == if found then [old(cache)[tag].1] else []
    {
      if !KeepsCache(sql) {
        cache, outdated := map[], {};
      } else if tag in cache && cache[tag].0 == key {
        return true, [cache[tag].1];
      }
      return false, [];
    }

    /** putResultInCache: one key for each tag. */
    method PutResultInCache(tag: string, key: Key, rows: R)
      modifies this`cache, this`outdated
      ensures cache == old(cache)[tag := (key, rows)] && outdated == old(outdated) - {tag}
    {
      cache := cache[tag := (key, rows)];
      outdated := outdated - {tag};
    }

    /** The adapter's get and getRow. */
    method Get(q: Query) returns (rows: R)
      modifies this`sql
      ensures sql == SqlOf(env, q) && rows == env.eval(db, q)
    {
      sql := SqlOf(env, q);
      rows := env.eval(db, q);
    }

    method QueryRecord(typ: string, conditions: Conditions, addSql: string, bindings: seq<string>) returns (rows: R)
      modifies this
      ensures var q := Record(typ, conditions, addSql, bindings);
              && (View(), rows) == Ask(env, old(View()), q)
              && (old(Inv(env, View()) && Fresh(env, View(), q)) ==> Inv(env, View()) && rows == env.eval(db, q))
    {
      ghost var w := View();
      var q := Record(typ, conditions, addSql, bindings);
      var key := RecordKey(conditions, addSql, bindings);
      if Inv(env, w) && Fresh(env, w, q) { AskFresh(env, w, q); }
      if flagUseCache {
        var found, cached := GetCached(typ, key);
        if found && !env.falsy(cached[0]) {
          return cached[0];
        }
      }
      rows := Get(q);
      if flagUseCache {
        PutResultInCache(typ, key, rows);
      }
    }

    method QueryRecordRelated(source: string, dest: string, ids: seq<string>, addSql: string, bindings: seq<string>)
      returns (rows: R)
      modifies this
      ensures var q := Related(source, dest, ids, addSql, bindings);
              && (View(), rows) == Ask(env, old(View()), q)
              && (old(Inv(env, View()) && Fresh(env, View(), q)) ==> Inv(env, View()) && rows == env.eval(db, q))
    {
      rows := QueryLink(Related(source, dest, ids, addSql, bindings), dest);
    }

    method QueryRecordLinks(source: string, dest: string, ids: seq<string>, addSql: string, bindings: seq<string>)
      returns (rows: R)
      modifies this
      ensures var q := Links(source, dest, ids, addSql, bindings);
              && (View(), rows) == Ask(env, old(View()), q)
              && (old(Inv(env, View()) && Fresh(env, View(), q)) ==> Inv(env, View()) && rows == env.eval(db, q))
    {
      rows := QueryLink(Links(source, dest, ids, addSql, bindings), env.linkTable(source, dest));
    }

    method QueryRecordLink(source: string, dest: string, sourceId: string, destId: string) returns (rows: R)
      modifies this
      ensures var q := Link(source, dest, sourceId, destId);
              && (View(), rows) == Ask(env, old(View()), q)
              && (old(Inv(env, View()) && Fresh(env, View(), q)) ==> Inv(env, View()) && rows == env.eval(db, q))
    {
      rows := QueryLink(Link(source, dest, sourceId, destId), env.linkTable(source, dest));
    }

    /** What the three queries over a link table have in common. */
    method QueryLink(q: Query, tag: string) returns (rows: R)
      requires !q.Record? && tag == TagOf(env, q)
      modifies this
      ensures (View(), rows) == Ask(env, old(View()), q)
      ensures old(Inv(env, View()) && Fresh(env, View(), q)) ==> Inv(env, View()) && rows == env.eval(db, q)
    {
      ghost var w := View();
      var key := KeyOf(q);
      if Inv(env, w) && Fresh(env, w, q) { AskFresh(env, w, q); }
      if flagUseCache {
        var found, cached := GetCached(tag, key);
        if found && !env.falsy(cached[0]) {
          return cached[0];
        }
      }
      rows := Get(q);
      PutResultInCache(tag, key, rows);
    }

    /** The adapter's exec: the database becomes `after`. */
    method Execute(statement: string, after: D, noEvent: bool)
      modifies this
      ensures View() == Perform(env, old(View()), if noEvent then Silent(after) else Exec(statement, after))
      ensures old(Inv(env, View())) ==> Inv(env, View())
    {
      ghost var w, op := View(), if noEvent then Silent(after) else Exec(statement, after);
      if Inv(env, w) { PerformKeeps(env, w, op); }
      if !noEvent {
        sql := statement;
      }
      outdated := if after == db then outdated else cache.Keys;
      db := after;
    }

    /** setUseCache */
    method SetFlag(yesNo: bool)
      modifies this
      ensures View() == Perform(env, old(View()), SetUseCache(yesNo)) && Inv(env, View())
    {
      cache, outdated := map[], {};
      flagUseCache := yesNo;
    }
  }
}
