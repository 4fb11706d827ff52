/**
 * Tenant scoping of queries (apps/api/src/prisma/prisma.client.ts): a rewriter that pins every read and bulk
 * write of a tenant-scoped model to the tenant of the request.
 */
module TenantScope {
  import opened Common

  // ---- Rows and conditions ----

  datatype Value = Null | Text(text: string) | Number(number: int)

  type Row = map<string, Value>

  const TENANT := "tenantId"

  datatype Condition = Equals(value: Value) | OneOf(values: set<Value>) | AtLeast(low: int) | AtMost(high: int)

  /** A where-clause: conditions on columns, and nested AND, OR and NOT clauses. */
  datatype Where = Where(columns: map<string, Condition>, all: seq<Where>, any: Alternatives, none: seq<Where>)

  /** The OR list; an absent one asks for nothing, an empty one cannot be met. */
  datatype Alternatives = Absent | AnyOf(clauses: seq<Where>)

  predicate Meets(v: Value, c: Condition) {
    match c
    case Equals(w) => v == w
    case OneOf(ws) => v in ws
    case AtLeast(low) => v.Number? && low <= v.number
    case AtMost(high) => v.Number? && v.number <= high
  }

  function ValueAt(row: Row, column: string): Value {
    if column in row then row[column] else Null
  }

  predicate Matches(w: Where, row: Row) {
    && (forall c | c in w.columns :: Meets(ValueAt(row, c), w.columns[c]))
    && (forall a | a in w.all :: Matches(a, row))
    && (w.any.AnyOf? ==> exists a | a in w.any.clauses :: Matches(a, row))
    && (forall a | a in w.none :: !Matches(a, row))
  }

  // ---- Queries ----

  datatype Operation =
    | FindFirst | FindFirstOrThrow | FindMany | Count | Aggregate | GroupBy | UpdateMany | DeleteMany
    | Create | CreateMany | Other(name: string)

  const WHERE_OPS: set<Operation> := {FindFirst, FindFirstOrThrow, FindMany, Count, Aggregate, GroupBy, UpdateMany, DeleteMany}

  const TENANT_SCOPED: set<string> := {"User", "Client", "AdAccount", "CrmConnection", "StageMapping", "Campaign", "AdSet", "Ad",
    "Creative", "AdInsightDaily", "Contact", "ContactIdentifier", "Lead", "Deal", "TouchPoint", "ConversionEvent", "MatchAudit",
    "SyncRun"}

  datatype Data = OneRow(row: Row) | ManyRows(rows: seq<Row>)

  /** where and data may be absent; column is the one a groupBy or aggregate is about. */
  datatype Args = Args(where: Option<Where>, data: Option<Data>, column: string)

  datatype Outcome =
    | Found(row: Option<Row>) | NotFound | Rows(rows: seq<Row>) | Counted(n: nat) | Least(min: Option<int>)
    | Groups(groups: map<Value, nat>) | Written(n: nat) | Done

  const EVERYTHING := Where(map[], [], Absent, [])

  function ConditionOf(a: Args): Where {
    if a.where.Some? then a.where.value else EVERYTHING
  }

  function Selected(rows: seq<Row>, a: Args): seq<Row> {
    Filter(rows, (r: Row) => Matches(ConditionOf(a), r))
  }

  function NewRows(a: Args): seq<Row> {
    match a.data
    case None => [map[]]
    case Some(OneRow(r)) => [r]
    case Some(ManyRows(rs)) => rs
  }

  function Updated(rows: seq<Row>, a: Args): seq<Row> {
    var patch := if a.data.Some? && a.data.value.OneRow? then a.data.value.row else map[];
    Patched(rows, ConditionOf(a), patch)
  }

  function Patched(rows: seq<Row>, w: Where, patch: Row): (r: seq<Row>)
    ensures |r| == |rows|
  {
    if |rows| == 0 then []
    else Patched(Front(rows), w, patch) + [if Matches(w, Last(rows)) then Last(rows) + patch else Last(rows)]
  }

  function LeastOf(rows: seq<Row>, column: string): Option<int> {
    if |rows| == 0 then None
    else
      var before, v := LeastOf(Front(rows), column), ValueAt(Last(rows), column);
      if !v.Number? then before
      else if before.Some? && before.value <= v.number then before else Some(v.number)
  }

  function GroupsOf(rows: seq<Row>, column: string): map<Value, nat> {
    if |rows| == 0 then map[]
    else
      var before, v := GroupsOf(Front(rows), column), ValueAt(Last(rows), column);
      before[v := (if v in before then before[v] else 0) + 1]
  }

  /** What the database answers to a query on one table. */
  function Answer(rows: seq<Row>, op: Operation, a: Args): Outcome {
    var hits := Selected(rows, a);
    match op
    case FindFirst => Found(if |hits| > 0 then Some(hits[0]) else None)
    case FindFirstOrThrow => if |hits| > 0 then Found(Some(hits[0])) else NotFound
    case FindMany => Rows(hits)
    case Count => Counted(|hits|)
    case Aggregate => Least(LeastOf(hits, a.column))
    case GroupBy => Groups(GroupsOf(hits, a.column))
    case UpdateMany => Written(|hits|)
    case DeleteMany => Written(|hits|)
    case Create => Rows(NewRows(a))
    case CreateMany => Written(|NewRows(a)|)
    case Other(_) => Done
  }

  /** The table afterwards; operations the rewriter does not know are not modelled and leave it alone. */
  function After(rows: seq<Row>, op: Operation, a: Args): seq<Row> {
    match op
    case UpdateMany => Updated(rows, a)
    case DeleteMany => Filter(rows, (r: Row) => !Matches(ConditionOf(a), r))
    case Create => rows + NewRows(a)
    case CreateMany => rows + NewRows(a)
    case _ => rows
  }

  // ---- The rewriter ----

  function Pinned(w: Where, t: TenantId): Where {
    w.(columns := w.columns[TENANT := Equals(Text(t))])
  }

  function Owned(r: Row, t: TenantId): Row {
    r[TENANT := Text(t)]
  }

  function OwnedData(d: Option<Data>, t: TenantId): Data {
    match d
    case None => OneRow(Owned(map[], t))
    case Some(OneRow(r)) => OneRow(Owned(r, t))
    case Some(ManyRows(rs)) => ManyRows(seq(|rs|, i requires 0 <= i < |rs| => Owned(rs[i], t)))
  }

  /** create takes one row; createMany maps over an array and otherwise treats its data as one row. */
  function CreatedData(op: Operation, d: Option<Data>, t: TenantId): Data {
    if op == Create && d.Some? && d.value.ManyRows? then OneRow(Owned(map[], t)) else OwnedData(d, t)
  }

  predicate InScope(ctx: Option<TenantId>, model: string) {
    Truthy(ctx) && model in TENANT_SCOPED
  }

  function Rewrite(ctx: Option<TenantId>, model: string, op: Operation, a: Args): Args {
    if !InScope(ctx, model) then a
    else if op in WHERE_OPS then a.(where := Some(Pinned(ConditionOf(a), ctx.value)))
    else if op in {Create, CreateMany} then a.(data := Some(CreatedData(op, a.data, ctx.value)))
    else a
  }

  // ---- What a rewritten query means ----

  predicate Owns(t: TenantId, row: Row) {
    ValueAt(row, TENANT) == Text(t)
  }

  function Slice(rows: seq<Row>, t: TenantId): seq<Row> {
    Filter(rows, (r: Row) => Owns(t, r))
  }

  /** The caller's clause without its own opinion on the tenant column. */
  function Unpinned(w: Where): Where {
    w.(columns := w.columns - {TENANT})
  }

  /** A pinned clause selects the tenant's rows among those of the caller's clause, whatever it says about tenants. */
  lemma {:induction false} PinnedMeans(w: Where, t: TenantId, row: Row)
    ensures Matches(Pinned(w, t), row) <==> Owns(t, row) && Matches(Unpinned(w), row)
  {
    assert forall c :: c in Unpinned(w).columns <==> c in w.columns && c != TENANT;
    assert Pinned(w, t).columns[TENANT] == Equals(Text(t));
    assert forall c :: c in Unpinned(w).columns ==> c in Pinned(w, t).columns && Pinned(w, t).columns[c] == Unpinned(w).columns[c];
    assert forall c :: c in Pinned(w, t).columns ==> c == TENANT || c in Unpinned(w).columns;
  }

  /** Every condition of the caller's clause but one on the tenant column itself. */
  lemma {:induction false} UnpinnedMeans(w: Where, row: Row)
    ensures Matches(Unpinned(w), row) <==>
            && (forall c | c in w.columns && c != TENANT :: Meets(ValueAt(row, c), w.columns[c]))
            && (forall a | a in w.all :: Matches(a, row))
            && (w.any.AnyOf? ==> exists a | a in w.any.clauses :: Matches(a, row))
            && (forall a | a in w.none :: !Matches(a, row))
    ensures TENANT !in w.columns ==> Unpinned(w) == w
  {
    assert forall c :: c in Unpinned(w).columns <==> c in w.columns && c != TENANT;
    assert TENANT !in w.columns ==> Unpinned(w).columns == w.columns;
  }

  /** The rewritten read is the caller's read on the tenant's slice. */
  lemma {:induction false} ScopedSelection(rows: seq<Row>, t: TenantId, a: Args)
    ensures Selected(rows, a.(where := Some(Pinned(ConditionOf(a), t))))
         == Selected(Slice(rows, t), a.(where := Some(Unpinned(ConditionOf(a)))))
  {
    var w := ConditionOf(a);
    forall row: Row
      ensures Matches(Pinned(w, t), row) <==> Owns(t, row) && Matches(Unpinned(w), row)
    {
      PinnedMeans(w, t, row);
    }
    FilterSplit(rows, (r: Row) => Matches(Pinned(w, t), r), (r: Row) => Owns(t, r), (r: Row) => Matches(Unpinned(w), r));
  }

  /** Filtering by a conjunction is filtering twice. */
  lemma {:induction false} FilterSplit(rows: seq<Row>, both: Row -> bool, p: Row -> bool, q: Row -> bool)
    requires forall r :: r in rows ==> (both(r) <==> p(r) && q(r))
    ensures Filter(rows, both) == Filter(Filter(rows, p), q)
  {
    if |rows| > 0 {
      assert rows == Front(rows) + [Last(rows)];
      FilterSplit(Front(rows), both, p, q);
      var inner := Filter(Front(rows), p);
      assert Front(inner + [Last(rows)]) == inner;
    }
  }

  lemma {:induction false} FilterConcat(a: seq<Row>, b: seq<Row>, p: Row -> bool)
    ensures Filter(a + b, p) == Filter(a, p) + Filter(b, p)
  {
    if |b| == 0 {
      assert a + b == a;
    } else {
      FilterConcat(a, Front(b), p);
      ConcatSnoc(a, b);
      assert Front((a + Front(b)) + [Last(b)]) == a + Front(b);
    }
  }

  // ---- One scoped operation ----

  /** The operations the rewriter scopes; an update may not move rows to another tenant. */
  predicate Scoped(t: TenantId, op: Operation, a: Args) {
    && (op in WHERE_OPS || op in {Create, CreateMany})
    && (op == UpdateMany && a.data.Some? && a.data.value.OneRow? && TENANT in a.data.value.row ==>
          a.data.value.row[TENANT] == Text(t))
  }

  /** What happens to a table when tenant t runs the operation through the rewriter. */
  function ScopedAfter(rows: seq<Row>, t: TenantId, op: Operation, a: Args): seq<Row> {
    After(rows, op, Rewrite(Some(t), "Lead", op, a))
  }

  function ScopedAnswer(rows: seq<Row>, t: TenantId, op: Operation, a: Args): Outcome {
    Answer(rows, op, Rewrite(Some(t), "Lead", op, a))
  }

  /** Every tenant-scoped model is rewritten alike, and outside a request or a scoped model nothing is rewritten. */
  lemma {:induction false} ScopeOfRewriting(ctx: Option<TenantId>, model: string, op: Operation, a: Args)
    ensures Rewrite(ctx, model, op, a)
         == if Truthy(ctx) && model in TENANT_SCOPED then Rewrite(Some(ctx.value), "Lead", op, a) else a
  {
  }

  lemma {:induction false} PinnedOnSlice(rows: seq<Row>, t: TenantId, w: Where)
    ensures Filter(rows, (r: Row) => Matches(Pinned(w, t), r)) == Filter(Slice(rows, t), (r: Row) => Matches(Pinned(w, t), r))
  {
    forall row: Row
      ensures Matches(Pinned(w, t), row) ==> Owns(t, row)
    {
      PinnedMeans(w, t, row);
    }
    FilterFiltered(rows, (r: Row) => Owns(t, r), (r: Row) => Matches(Pinned(w, t), r));
  }

  /** A patch of pinned rows is invisible to every other tenant, and acts on the own slice as on a table of its own. */
  lemma {:induction false} PatchSlices(rows: seq<Row>, t: TenantId, u: TenantId, w: Where, patch: Row)
    requires TENANT in patch ==> patch[TENANT] == Text(t)
    ensures Slice(Patched(rows, Pinned(w, t), patch), u)
         == if u == t then Patched(Slice(rows, t), Pinned(w, t), patch) else Slice(rows, u)
  {
    if |rows| > 0 {
      PatchSlices(Front(rows), t, u, w, patch);
      PinnedMeans(w, t, Last(rows));
      var row := if Matches(Pinned(w, t), Last(rows)) then Last(rows) + patch else Last(rows);
      var before := Patched(Front(rows), Pinned(w, t), patch);
      assert Front(before + [row]) == before;
      var slice := Slice(Front(rows), t);
      assert Front(slice + [Last(rows)]) == slice;
      assert Owns(t, Last(rows)) == Owns(t, row);
      if u != t && Owns(t, Last(rows)) { assert !Owns(u, row) && !Owns(u, Last(rows)); }
    }
  }

  lemma {:induction false} DeleteSlices(rows: seq<Row>, t: TenantId, u: TenantId, w: Where)
    ensures var kept := Filter(rows, (r: Row) => !Matches(Pinned(w, t), r));
            Slice(kept, u) == if u == t then Filter(Slice(rows, t), (r: Row) => !Matches(Pinned(w, t), r)) else Slice(rows, u)
  {
    var keep := (r: Row) => !Matches(Pinned(w, t), r);
    if u == t {
      var both := (r: Row) => keep(r) && Owns(t, r);
      FilterSplit(rows, both, keep, (r: Row) => Owns(t, r));
      FilterSplit(rows, both, (r: Row) => Owns(t, r), keep);
    } else {
      forall r: Row
        ensures Owns(u, r) ==> keep(r)
      {
        PinnedMeans(w, t, r);
      }
      FilterFiltered(rows, keep, (r: Row) => Owns(u, r));
    }
  }

  lemma {:induction false} InsertSlices(rows: seq<Row>, t: TenantId, u: TenantId, news: seq<Row>)
    requires forall r :: r in news ==> Owns(t, r)
    ensures Slice(rows + news, u) == if u == t then Slice(rows, t) + news else Slice(rows, u)
  {
    FilterConcat(rows, news, (r: Row) => Owns(u, r));
    if u == t { FilterAll(news, (r: Row) => Owns(u, r)); } else { FilterNone(news, (r: Row) => Owns(u, r)); }
  }

  lemma {:induction false} FilterAll(rows: seq<Row>, p: Row -> bool)
    requires forall r :: r in rows ==> p(r)
    ensures Filter(rows, p) == rows
  {
    if |rows| > 0 {
      assert rows == Front(rows) + [Last(rows)];
      FilterAll(Front(rows), p);
    }
  }

  lemma {:induction false} FilterNone(rows: seq<Row>, p: Row -> bool)
    requires forall r :: r in rows ==> !p(r)
    ensures Filter(rows, p) == []
  {
    if |rows| > 0 {
      assert rows == Front(rows) + [Last(rows)];
      FilterNone(Front(rows), p);
    }
  }

  lemma {:induction false} CreatedRowsOwned(op: Operation, d: Option<Data>, t: TenantId, a: Args)
    requires a.data == Some(CreatedData(op, d, t))
    ensures forall r :: r in NewRows(a) ==> Owns(t, r)
  {
  }

  lemma {:induction false} ScopedSelectionAnswers(rows: seq<Row>, t: TenantId, op: Operation, a: Args)
    requires t != "" && op in WHERE_OPS
    ensures ScopedAnswer(rows, t, op, a) == ScopedAnswer(Slice(rows, t), t, op, a)
  {
    PinnedOnSlice(rows, t, ConditionOf(a));
  }

  lemma {:induction false} ScopedUpdate(rows: seq<Row>, t: TenantId, a: Args, u: TenantId)
    requires t != "" && Scoped(t, UpdateMany, a)
    ensures Slice(ScopedAfter(rows, t, UpdateMany, a), u)
         == if u == t then ScopedAfter(Slice(rows, t), t, UpdateMany, a) else Slice(rows, u)
  {
    PatchSlices(rows, t, u, ConditionOf(a), if a.data.Some? && a.data.value.OneRow? then a.data.value.row else map[]);
  }

  lemma {:induction false} ScopedDelete(rows: seq<Row>, t: TenantId, a: Args, u: TenantId)
    requires t != ""
    ensures Slice(ScopedAfter(rows, t, DeleteMany, a), u)
         == if u == t then ScopedAfter(Slice(rows, t), t, DeleteMany, a) else Slice(rows, u)
  {
    DeleteSlices(rows, t, u, ConditionOf(a));
  }

  lemma {:induction false} ScopedRead(rows: seq<Row>, t: TenantId, op: Operation, a: Args)
    requires op in WHERE_OPS && op !in {UpdateMany, DeleteMany}
    ensures ScopedAfter(rows, t, op, a) == rows && ScopedAfter(Slice(rows, t), t, op, a) == Slice(rows, t)
  {
  }

  lemma {:induction false} ScopedCreate(rows: seq<Row>, t: TenantId, op: Operation, a: Args, u: TenantId)
    requires t != "" && op in {Create, CreateMany}
    ensures ScopedAnswer(rows, t, op, a) == ScopedAnswer(Slice(rows, t), t, op, a)
    ensures Slice(ScopedAfter(rows, t, op, a), u) == if u == t then ScopedAfter(Slice(rows, t), t, op, a) else Slice(rows, u)
  {
    var a1 := Rewrite(Some(t), "Lead", op, a);
    CreatedRowsOwned(op, a.data, t, a1);
    InsertSlices(rows, t, u, NewRows(a1));
  }

  /**
   * One scoped operation of tenant t: it answers what it answers on t's slice alone, changes t's slice as it
   * would change a table of its own, and changes no other tenant's slice.
   */
  lemma {:induction false} ScopedOperation(rows: seq<Row>, t: TenantId, op: Operation, a: Args, u: TenantId)
    requires t != "" && Scoped(t, op, a)
    ensures ScopedAnswer(rows, t, op, a) == ScopedAnswer(Slice(rows, t), t, op, a)
    ensures Slice(ScopedAfter(rows, t, op, a), u) == if u == t then ScopedAfter(Slice(rows, t), t, op, a) else Slice(rows, u)
  {
    if op in WHERE_OPS {
      ScopedSelectionAnswers(rows, t, op, a);
      match op
      case UpdateMany => ScopedUpdate(rows, t, a, u);
      case DeleteMany => ScopedDelete(rows, t, a, u);
      case _ => ScopedRead(rows, t, op, a);
    } else {
      ScopedCreate(rows, t, op, a, u);
    }
  }

  // ---- What the caller gets, without the rewriter ----

  /** The caller's arguments without their own opinion on the tenant column. */
  function OwnArgs(a: Args): Args {
    a.(where := Some(Unpinned(ConditionOf(a))))
  }

  /**
   * A scoped read or bulk write is the caller's own query run on the tenant's slice: it answers what that answers,
   * and leaves of the slice what that leaves.
   */
  lemma {:induction false} ScopedQueryIsOwn(rows: seq<Row>, t: TenantId, op: Operation, a: Args)
    requires t != "" && Scoped(t, op, a) && op in WHERE_OPS
    ensures ScopedAnswer(rows, t, op, a) == Answer(Slice(rows, t), op, OwnArgs(a))
    ensures Slice(ScopedAfter(rows, t, op, a), t) == After(Slice(rows, t), op, OwnArgs(a))
  {
    var w, own := ConditionOf(a), Slice(rows, t);
    ScopedSelection(rows, t, a);
    ScopedOperation(rows, t, op, a, t);
    forall r | r in own
      ensures Matches(Pinned(w, t), r) == Matches(Unpinned(w), r)
    {
      PinnedMeans(w, t, r);
    }
    match op
    case UpdateMany =>
      PatchSame(own, Pinned(w, t), Unpinned(w), if a.data.Some? && a.data.value.OneRow? then a.data.value.row else map[]);
    case DeleteMany =>
      FilterSame(own, (r: Row) => !Matches(Pinned(w, t), r), (r: Row) => !Matches(Unpinned(w), r));
    case _ =>
  }

  lemma {:induction false} PatchSame(rows: seq<Row>, v: Where, w: Where, patch: Row)
    requires forall r :: r in rows ==> Matches(v, r) == Matches(w, r)
    ensures Patched(rows, v, patch) == Patched(rows, w, patch)
  {
    if |rows| > 0 {
      assert rows == Front(rows) + [Last(rows)];
      PatchSame(Front(rows), v, w, patch);
    }
  }

  /** row is the caller's row, of tenant t whatever the caller wrote there. */
  ghost predicate OwnedCopy(row: Row, given: Row, t: TenantId) {
    && TENANT in row && row[TENANT] == Text(t)
    && forall c :: c != TENANT ==> (c in row <==> c in given) && (c in row ==> row[c] == given[c])
  }

  /**
   * A scoped create adds the caller's rows, all of them and in order, each unchanged but for the tenant column. A
   * list of rows is something only createMany takes.
   */
  lemma {:induction false} ScopedCreateIsOwn(rows: seq<Row>, t: TenantId, op: Operation, a: Args) returns (news: seq<Row>)
    requires t != "" && op in {Create, CreateMany}
    requires op == Create ==> !(a.data.Some? && a.data.value.ManyRows?)
    ensures ScopedAfter(rows, t, op, a) == rows + news
    ensures ScopedAnswer(rows, t, op, a) == if op == Create then Rows(news) else Written(|news|)
    ensures |news| == |NewRows(a)| && forall i :: 0 <= i < |news| ==> OwnedCopy(news[i], NewRows(a)[i], t)
  {
    news := NewRows(Rewrite(Some(t), "Lead", op, a));
  }

  // ---- Interleavings ----

  datatype Request = Request(tenant: TenantId, op: Operation, args: Args)

  function RunAfter(rows: seq<Row>, requests: seq<Request>): seq<Row> {
    if |requests| == 0 then rows
    else
      var r := Last(requests);
      ScopedAfter(RunAfter(rows, Front(requests)), r.tenant, r.op, r.args)
  }

  /** The answers tenant t gets over a run, in order. */
  function AnswersTo(rows: seq<Row>, requests: seq<Request>, t: TenantId): seq<Outcome> {
    if |requests| == 0 then []
    else
      var r := Last(requests);
      var before := AnswersTo(rows, Front(requests), t);
      if r.tenant == t then before + [ScopedAnswer(RunAfter(rows, Front(requests)), t, r.op, r.args)] else before
  }

  function Own(requests: seq<Request>, t: TenantId): seq<Request> {
    Filter(requests, (r: Request) => r.tenant == t)
  }

  predicate AllScoped(requests: seq<Request>) {
    forall r | r in requests :: r.tenant != "" && Scoped(r.tenant, r.op, r.args)
  }

  /**
   * Non-interference: over any interleaving of scoped operations of any tenants, each tenant gets exactly the
   * answers, and is left with exactly the rows, of running only its own operations on only its own slice.
   */
  lemma {:induction false} NoInterference(rows: seq<Row>, requests: seq<Request>, t: TenantId)
    requires AllScoped(requests)
    ensures Slice(RunAfter(rows, requests), t) == RunAfter(Slice(rows, t), Own(requests, t))
    ensures AnswersTo(rows, requests, t) == AnswersTo(Slice(rows, t), Own(requests, t), t)
  {
    if |requests| > 0 {
      assert requests == Front(requests) + [Last(requests)];
      var r := Last(requests);
      NoInterference(rows, Front(requests), t);
      ScopedOperation(RunAfter(rows, Front(requests)), r.tenant, r.op, r.args, t);
      var own := Own(Front(requests), t);
      assert Front(own + [r]) == own;
    }
  }

  // ---- Updates that move rows ----

  lemma {:induction false} SameSliceSize(rows: seq<Row>, w: Where, patch: Row, u: TenantId)
    requires ValueAt(patch, TENANT) == Text(u)
    ensures |Slice(Patched(rows, w, patch), u)| >= |Slice(rows, u)|
    ensures |Slice(Patched(rows, w, patch), u)| == |Slice(rows, u)| ==> forall r :: r in rows && Matches(w, r) ==> Owns(u, r)
  {
    if |rows| > 0 {
      assert rows == Front(rows) + [Last(rows)];
      SameSliceSize(Front(rows), w, patch, u);
      var row := if Matches(w, Last(rows)) then Last(rows) + patch else Last(rows);
      var before := Patched(Front(rows), w, patch);
      assert Front(before + [row]) == before;
    }
  }

  /**
   * The rewriter does not look at the data of an updateMany. Data that sets the tenant column to another tenant
   * u leaves u's slice alone exactly when the update selects no row.
   */
  lemma {:induction false} MovingUpdate(rows: seq<Row>, t: TenantId, u: TenantId, a: Args)
    requires t != "" && t != u
    requires a.data.Some? && a.data.value.OneRow? && ValueAt(a.data.value.row, TENANT) == Text(u)
    ensures Slice(ScopedAfter(rows, t, UpdateMany, a), u) == Slice(rows, u)
            <==> Selected(rows, Rewrite(Some(t), "Lead", UpdateMany, a)) == []
  {
    assert InScope(Some(t), "Lead");
    var w, patch := Pinned(ConditionOf(a), t), a.data.value.row;
    var hits := Filter(rows, (r: Row) => Matches(w, r));
    FirstIsMember(hits);
    if |hits| > 0 {
      PinnedMeans(ConditionOf(a), t, hits[0]);
      SameSliceSize(rows, w, patch, u);
    } else {
      assert forall r :: r in rows ==> !Matches(w, r);
      NothingPatched(rows, w, patch);
    }
  }

  /** Such an update exists: it hands tenant a's only row to tenant b. */
  lemma {:induction false} UpdateMovesRow()
    ensures exists rows, a: Args :: a.data == Some(OneRow(map[TENANT := Text("b")]))
                              && Slice(rows, "b") == [] && Slice(ScopedAfter(rows, "a", UpdateMany, a), "b") != []
  {
    var row: Row := map[TENANT := Text("a")];
    var a := Args(None, Some(OneRow(map[TENANT := Text("b")])), "");
    assert "a"[0] != "b"[0];
    assert ValueAt(row, TENANT) == Text("a") && !Owns("b", row);
    FirstIsMember(Slice([row], "b"));
    assert forall r :: r in [row] ==> r == row;
    PinnedMeans(EVERYTHING, "a", row);
    assert Matches(Unpinned(EVERYTHING), row);
    assert InScope(Some("a"), "Lead");
    assert row in [row] && row in Selected([row], Rewrite(Some("a"), "Lead", UpdateMany, a));
    MovingUpdate([row], "a", "b", a);
  }

  lemma {:induction false} NothingPatched(rows: seq<Row>, w: Where, patch: Row)
    requires forall r :: r in rows ==> !Matches(w, r)
    ensures Patched(rows, w, patch) == rows
  {
    if |rows| > 0 {
      assert rows == Front(rows) + [Last(rows)];
      NothingPatched(Front(rows), w, patch);
    }
  }

  // ---- The client ----

  /** The argument object of one call, which the rewriter changes in place. */
  class QueryArgs {
    var where: Option<Where>
    var data: Option<Data>
    const column: string

    constructor (where: Option<Where>, data: Option<Data>, column: string)
      ensures this.where == where && this.data == data && this.column == column
    {
      this.where, this.data, this.column := where, data, column;
    }

    function Value(): Args
      reads this
    {
      Args(where, data, column)
    }
  }

  class Client {
    var tables: map<string, seq<Row>>

    constructor ()
      ensures tables == map[]
    {
      tables := map[];
    }

    function TableOf(model: string): seq<Row>
      reads this
    {
      if model in tables then tables[model] else []
    }

    /** The query engine itself. */
    method Query(model: string, op: Operation, a: Args) returns (r: Outcome)
      modifies this
      ensures r == Answer(old(TableOf(model)), op, a)
      ensures tables == old(tables)[model := After(old(TableOf(model)), op, a)]
    {
      r := Answer(TableOf(model), op, a);
      tables := tables[model := After(TableOf(model), op, a)];
    }

    method AllOperations(ctx: Option<TenantId>, model: string, op: Operation, args: QueryArgs) returns (r: Outcome)
      modifies this, args
      ensures args.Value() == Rewrite(ctx, model, op, old(args.Value()))
      ensures r == Answer(old(TableOf(model)), op, args.Value())
      ensures tables == old(tables)[model := After(old(TableOf(model)), op, args.Value())]
    {
      if !Truthy(ctx) || model !in TENANT_SCOPED {
        r := Query(model, op, args.Value());
        return;
      }
      var t := ctx.value;
      if op in WHERE_OPS {
        var w := if args.where.Some? then args.where.value else EVERYTHING;
        args.where := Some(w.(columns := w.columns[TENANT := Equals(Text(t))]));
      } else if op == Create {
        var row := if args.data.Some? && args.data.value.OneRow? then args.data.value.row else map[];
        args.data := Some(OneRow(row[TENANT := Text(t)]));
      } else if op == CreateMany {
        if args.data.Some? && args.data.value.ManyRows? {
          var owned: seq<Row> := [];
          var rows := args.data.value.rows;
          for i := 0 to |rows|
            invariant owned == seq(i, k requires 0 <= k < i => Owned(rows[k], t))
          {
            owned := owned + [rows[i][TENANT := Text(t)]];
          }
          args.data := Some(ManyRows(owned));
        } else {
          var row := if args.data.Some? then args.data.value.row else map[];
          args.data := Some(OneRow(row[TENANT := Text(t)]));
        }
      }
      r := Query(model, op, args.Value());
    }
  }
}
